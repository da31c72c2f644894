/** The YouTube link detector: the eleven URL patterns, the global-regex scan that
    runs them over a post's title and text, the de-duplication by video id, and the
    small string functions that rewrite an id to privacy-friendly front ends.

    The patterns are JavaScript regular expressions with the `g` and `i` flags. Each
    one is modelled exactly: an optional `https?://`, for some patterns an optional
    `www.`, a host and a path written literally, and then either the 11-character id at once
    or a greedy `.*` followed by `[&?]v=` and the id. Alternatives are tried in the
    regex engine's backtracking order and the leftmost starting position wins. */
module YouTube {
  import opened Util

  // ------------------------------------------------------------------
  // Characters

  /** ASCII lower-casing, the part of `toLowerCase` that the patterns can observe. */
  function Lower(c: char): char
  {
    if 'A' <= c <= 'Z' then (c as int + 32) as char else c
  }

  function LowerStr(s: string): (r: string)
    ensures |r| == |s|
    ensures forall i :: 0 <= i < |s| ==> r[i] == Lower(s[i])
  {
    seq(|s|, i requires 0 <= i < |s| => Lower(s[i]))
  }

  /** The class `[a-zA-Z0-9_-]`. */
  predicate IsIdChar(c: char)
  {
    'a' <= c <= 'z' || 'A' <= c <= 'Z' || '0' <= c <= '9' || c == '_' || c == '-'
  }

  /** The characters `.` does not match. */
  predicate IsLineTerminator(c: char)
  {
    c == '\n' || c == '\r' || c == '\U{2028}' || c == '\U{2029}'
  }

  /** `lit` (written in lower case) occurs in `s` at `c`, ignoring ASCII case: the `i` flag. */
  predicate LiteralAt(s: string, c: nat, lit: string)
  {
    c + |lit| <= |s| && forall k :: 0 <= k < |lit| ==> Lower(s[c + k]) == lit[k]
  }

  /** `[a-zA-Z0-9_-]{11}` matches at `a`. */
  predicate IdAt(s: string, a: nat)
  {
    a + 11 <= |s| && forall k :: a <= k < a + 11 ==> IsIdChar(s[k])
  }

  /** `[&?]v=` followed by an id matches at `k`. */
  predicate VParamAt(s: string, k: nat)
  {
    k + 3 <= |s| && (s[k] == '&' || s[k] == '?') && Lower(s[k + 1]) == 'v' && s[k + 2] == '=' && IdAt(s, k + 3)
  }

  // ------------------------------------------------------------------
  // The pattern list (src/youtube_detector.js, lines 6-35)

  /** What follows the literal path: the id at once, or `.*[&?]v=` and then the id. */
  datatype Tail = IdNext | AnyThenV

  /** `(?:https?:\/\/)?`, then `(?:www\.)?` when `www` holds, then `host` and `path`
      literally, then the tail. */
  datatype Pattern = Pattern(www: bool, host: string, path: string, tail: Tail)

  const YouTubeCom := "youtube.com"
  const YoutuBe := "youtu.be"
  const MobileYouTube := "m.youtube.com"
  const NoCookie := "youtube-nocookie.com"
  const GamingYouTube := "gaming.youtube.com"

  /** The hosts the patterns name. */
  predicate IsHost(host: string)
  {
    host == YouTubeCom || host == YoutuBe || host == MobileYouTube || host == NoCookie || host == GamingYouTube
  }

  const Patterns: seq<Pattern> := [
    Pattern(true, YouTubeCom, "/watch?v=", IdNext),
    Pattern(true, YouTubeCom, "/watch?", AnyThenV),
    Pattern(false, YoutuBe, "/", IdNext),
    Pattern(false, MobileYouTube, "/watch?v=", IdNext),
    Pattern(false, MobileYouTube, "/watch?", AnyThenV),
    Pattern(true, YouTubeCom, "/embed/", IdNext),
    Pattern(true, YouTubeCom, "/playlist?", AnyThenV),
    Pattern(true, YouTubeCom, "/shorts/", IdNext),
    Pattern(true, NoCookie, "/embed/", IdNext),
    Pattern(false, GamingYouTube, "/watch?v=", IdNext),
    Pattern(true, YouTubeCom, "/tv", AnyThenV)
  ]

  /** Every pattern names one of the hosts. */
  lemma PatternHost(pi: nat)
    requires pi < |Patterns|
    ensures IsHost(Patterns[pi].host)
  {
  }

  // ------------------------------------------------------------------
  // One pattern at one position

  /** End of the run that `.*` may cover from `q`: the next line terminator, or the end. */
  function LineEnd(s: string, q: nat): (r: nat)
    requires q <= |s|
    ensures q <= r <= |s|
    ensures forall k :: q <= k < r ==> !IsLineTerminator(s[k])
    ensures r < |s| ==> IsLineTerminator(s[r])
    decreases |s| - q
  {
    if q == |s| || IsLineTerminator(s[q]) then q else LineEnd(s, q + 1)
  }

  /** Where a greedy `.*` starting at `q` hands over to `[&?]v=`: the engine gives characters
      back one at a time from `hi`, so the rightmost position that works is taken. */
  function LastVParam(s: string, q: nat, hi: nat): (r: Option<nat>)
    requires q <= hi <= |s|
    ensures r.Some? ==> q <= r.value < hi && VParamAt(s, r.value)
    ensures r.Some? ==> forall k :: r.value < k < hi ==> !VParamAt(s, k)
    ensures r.None? ==> forall k :: q <= k < hi ==> !VParamAt(s, k)
    decreases hi - q
  {
    if hi == q then None
    else if VParamAt(s, hi - 1) then Some(hi - 1)
    else LastVParam(s, q, hi - 1)
  }

  /** Where the captured id starts, when the pattern's tail matches right after its host and path, at `q`. */
  function TailCapture(p: Pattern, s: string, q: nat): (r: Option<nat>)
    requires q <= |s|
    ensures r.Some? ==> q <= r.value && IdAt(s, r.value)
  {
    match p.tail
    case IdNext => if IdAt(s, q) then Some(q) else None
    case AnyThenV =>
      match LastVParam(s, q, LineEnd(s, q))
      case None => None
      case Some(k) => Some(k + 3)
  }

  /** Length of the `https?://` that the optional scheme group takes at `i` (0 when it is skipped). */
  function SchemeLength(s: string, i: nat): nat
  {
    if i + 4 <= |s| && Lower(s[i]) == 'h' && Lower(s[i + 1]) == 't' && Lower(s[i + 2]) == 't' && Lower(s[i + 3]) == 'p' then
      (if i + 8 <= |s| && Lower(s[i + 4]) == 's' && s[i + 5] == ':' && s[i + 6] == '/' && s[i + 7] == '/' then 8
       else if i + 7 <= |s| && s[i + 4] == ':' && s[i + 5] == '/' && s[i + 6] == '/' then 7
       else 0)
    else 0
  }

  /** The capture when the host starts at `c` and the path and the tail match after it. */
  function CoreThenTail(p: Pattern, s: string, c: nat): (r: Option<nat>)
    ensures r.Some? ==> c + |p.host| <= r.value && IdAt(s, r.value)
    ensures r.Some? ==> LiteralAt(s, c, p.host)
  {
    if LiteralAt(s, c, p.host) && LiteralAt(s, c + |p.host|, p.path)
    then TailCapture(p, s, c + |p.host| + |p.path|)
    else None
  }

  /** From `j`, the optional `www.` group: taken first, skipped if the rest then fails. */
  function AfterWww(p: Pattern, s: string, j: nat): (r: Option<nat>)
    ensures r.Some? ==> j + |p.host| <= r.value && IdAt(s, r.value)
    ensures r.Some? ==> LiteralAt(s, j, p.host) || LiteralAt(s, j + 4, p.host)
  {
    var withWww := if p.www && j + 4 <= |s| && Lower(s[j]) == 'w' && Lower(s[j + 1]) == 'w' && Lower(s[j + 2]) == 'w' && s[j + 3] == '.' then CoreThenTail(p, s, j + 4) else None;
    if withWww.Some? then withWww else CoreThenTail(p, s, j)
  }

  /** Where the id captured by a match of pattern `pi` that starts exactly at `i` begins: the
      optional scheme group is taken first and skipped if the rest then fails. */
  function MatchAt(pi: nat, s: string, i: nat): (r: Option<nat>)
    requires pi < |Patterns|
    ensures r.Some? ==> i < r.value && IdAt(s, r.value)
    ensures r.Some? ==> exists c :: i <= c && LiteralAt(s, c, Patterns[pi].host)
  {
    var p := Patterns[pi];
    assert |p.host| > 0;
    var n := SchemeLength(s, i);
    var withScheme := if n > 0 then AfterWww(p, s, i + n) else None;
    if withScheme.Some? then withScheme else AfterWww(p, s, i)
  }

  // ------------------------------------------------------------------
  // `exec` and the global scan

  /** One match: which pattern, where it starts and ends, `match[0]` and `match[1]`. */
  datatype Hit = Hit(pattern: nat, start: nat, end: nat, url: string, id: string)

  /** `h` is a match read off `s`: its url is the matched text and its id the last 11 characters. */
  ghost predicate HitIn(s: string, h: Hit)
  {
    h.start + 11 < h.end <= |s| && IdAt(s, h.end - 11)
    && h.url == s[h.start..h.end] && h.id == s[h.end - 11..h.end]
  }

  function HitAt(pi: nat, s: string, i: nat, a: nat): (h: Hit)
    requires i < a && a + 11 <= |s|
  {
    Hit(pi, i, a + 11, s[i..a + 11], s[a..a + 11])
  }

  /** A matcher tells, for a pattern index and a start position, where the id captured by a
      match starting exactly there begins. The scan below is written for any matcher;
      `Regexes` is the one made of the eleven patterns. */
  type Matcher = (nat, nat) -> Option<nat>

  /** The eleven patterns over the text `s`. */
  function Regexes(s: string): Matcher
  {
    (pi: nat, i: nat) => if pi < |Patterns| then MatchAt(pi, s, i) else None
  }

  /** Every capture a matcher reports is an id after the match's start. */
  ghost predicate Sound(m: Matcher, s: string)
  {
    forall pi: nat, i: nat :: m(pi, i).Some? ==> i < m(pi, i).value && IdAt(s, m(pi, i).value)
  }

  /** Pattern `pi` matches at no position of `s`. */
  ghost predicate MatchesNowhere(pi: nat, s: string)
    requires pi < |Patterns|
  {
    forall i :: 0 <= i <= |s| ==> MatchAt(pi, s, i).None?
  }

  /** The matcher reports nothing for pattern `pi` anywhere in `s`. */
  ghost predicate Silent(m: Matcher, pi: nat, s: string)
  {
    forall i :: 0 <= i <= |s| ==> m(pi, i).None?
  }

  lemma RegexesSound(s: string)
    ensures Sound(Regexes(s), s)
  {
    forall pi: nat, i: nat | Regexes(s)(pi, i).Some?
      ensures i < Regexes(s)(pi, i).value && IdAt(s, Regexes(s)(pi, i).value)
    {
      assert Regexes(s)(pi, i) == MatchAt(pi, s, i);
    }
  }

  /** The regexes report nothing for pattern `pi` exactly when it matches nowhere. */
  lemma RegexesSilent(pi: nat, s: string)
    requires pi < |Patterns|
    ensures Silent(Regexes(s), pi, s) <==> MatchesNowhere(pi, s)
  {
    forall i: nat ensures Regexes(s)(pi, i) == MatchAt(pi, s, i) {
    }
  }

  /** The first position in [from, hi] where pattern `pi` matches. */
  function Leftmost(m: Matcher, pi: nat, from: nat, hi: nat): (r: Option<nat>)
    requires from <= hi
    ensures r.Some? ==> from <= r.value <= hi && m(pi, r.value).Some?
    ensures r.Some? ==> forall i :: from <= i < r.value ==> m(pi, i).None?
    ensures r.None? <==> forall i :: from <= i <= hi ==> m(pi, i).None?
    decreases hi - from
  {
    if m(pi, from).Some? then Some(from)
    else if from == hi then None
    else Leftmost(m, pi, from + 1, hi)
  }

  /** `pattern.exec(s)` with `lastIndex == from`: the match with the leftmost start at or after `from`. */
  function Exec(m: Matcher, pi: nat, s: string, from: nat): (r: Option<Hit>)
    requires Sound(m, s) && from <= |s|
    ensures r.Some? ==> r.value.pattern == pi && from <= r.value.start < r.value.end <= |s|
    ensures r.Some? ==> m(pi, r.value.start).Some?
    ensures r.Some? ==> forall i :: from <= i < r.value.start ==> m(pi, i).None?
    ensures r.None? <==> forall i :: from <= i <= |s| ==> m(pi, i).None?
  {
    match Leftmost(m, pi, from, |s|)
    case None => None
    case Some(i) => Some(HitAt(pi, s, i, m(pi, i).value))
  }

  /** What `exec` returns is a match read off `s`. */
  lemma ExecSound(m: Matcher, pi: nat, s: string, from: nat)
    requires Sound(m, s) && from <= |s| && Exec(m, pi, s, from).Some?
    ensures HitIn(s, Exec(m, pi, s, from).value)
  {
  }

  /** Every match `exec` returns for pattern `pi`, restarting at the end of the previous one. */
  function Scan(m: Matcher, pi: nat, s: string, from: nat): seq<Hit>
    requires Sound(m, s) && from <= |s|
    decreases |s| - from
  {
    match Exec(m, pi, s, from)
    case None => []
    case Some(h) => [h] + Scan(m, pi, s, h.end)
  }

  /** The scan's matches are matches of pattern `pi` read off `s`, left to right and
      not overlapping. */
  lemma {:induction false} ScanSound(m: Matcher, pi: nat, s: string, from: nat)
    requires Sound(m, s) && from <= |s|
    ensures forall k :: 0 <= k < |Scan(m, pi, s, from)| ==>
      Scan(m, pi, s, from)[k].pattern == pi && from <= Scan(m, pi, s, from)[k].start
      && HitIn(s, Scan(m, pi, s, from)[k])
    ensures forall j, k :: 0 <= j < k < |Scan(m, pi, s, from)| ==>
      Scan(m, pi, s, from)[j].end <= Scan(m, pi, s, from)[k].start
    decreases |s| - from
  {
    match Exec(m, pi, s, from)
    case None =>
    case Some(h) =>
      ExecSound(m, pi, s, from);
      ScanSound(m, pi, s, h.end);
  }

  /** `h1` comes before `h2` in scan order: an earlier pattern, or the same pattern further left. */
  predicate Precedes(h1: Hit, h2: Hit)
  {
    h1.pattern < h2.pattern || (h1.pattern == h2.pattern && h1.end <= h2.start)
  }

  /** The matches of the first `n` patterns, pattern after pattern. */
  function Hits(m: Matcher, s: string, n: nat): seq<Hit>
    requires Sound(m, s)
  {
    if n == 0 then [] else Hits(m, s, n - 1) + Scan(m, n - 1, s, 0)
  }

  /** All matches are read off `s`, in scan order: pattern by pattern, left to right. */
  lemma {:induction false} HitsSound(m: Matcher, s: string, n: nat)
    requires Sound(m, s)
    ensures forall k :: 0 <= k < |Hits(m, s, n)| ==> Hits(m, s, n)[k].pattern < n && HitIn(s, Hits(m, s, n)[k])
    ensures forall j, k :: 0 <= j < k < |Hits(m, s, n)| ==> Precedes(Hits(m, s, n)[j], Hits(m, s, n)[k])
  {
    if n > 0 {
      HitsSound(m, s, n - 1);
      ScanSound(m, n - 1, s, 0);
    }
  }

  /** The matches of all eleven patterns in `s`. */
  function AllHits(s: string): seq<Hit>
  {
    RegexesSound(s);
    Hits(Regexes(s), s, |Patterns|)
  }

  // ------------------------------------------------------------------
  // De-duplication by id

  function IdsOf(hits: seq<Hit>): set<string>
  {
    set h | h in hits :: h.id
  }

  /** The matches that get a record: a match is dropped when a record with its id exists. */
  function Kept(hits: seq<Hit>): (r: seq<Hit>)
    ensures IdsOf(r) == IdsOf(hits)
    ensures forall k :: 0 <= k < |r| ==> r[k] in hits
    ensures forall j, k :: 0 <= j < k < |r| ==> r[j].id != r[k].id
  {
    if hits == [] then []
    else
      var init := hits[..|hits| - 1];
      var h := hits[|hits| - 1];
      var r0 := Kept(init);
      assert hits == init + [h];
      if h.id in IdsOf(r0) then r0
      else
        assert IdsOf(r0 + [h]) == IdsOf(r0) + {h.id};
        r0 + [h]
  }

  /** No earlier match carries the id of match `k`. */
  predicate FirstOfItsId(hits: seq<Hit>, k: nat)
    requires k < |hits|
  {
    forall j :: 0 <= j < k ==> hits[j].id != hits[k].id
  }

  /** Reference definition: the matches no earlier match shares an id with, in scan order. */
  function Firsts(hits: seq<Hit>): seq<Hit>
  {
    if hits == [] then []
    else
      Firsts(hits[..|hits| - 1])
      + (if FirstOfItsId(hits, |hits| - 1) then [hits[|hits| - 1]] else [])
  }

  // ------------------------------------------------------------------
  // extractYouTubeLinks

  datatype LinkInfo = LinkInfo(originalUrl: string, videoId: string, fullMatch: string)

  function LinkOf(h: Hit): LinkInfo
  {
    LinkInfo(h.url, h.id, h.url)
  }

  function Links(hits: seq<Hit>): (r: seq<LinkInfo>)
    ensures |r| == |hits|
    ensures forall k :: 0 <= k < |hits| ==> r[k] == LinkOf(hits[k])
  {
    seq(|hits|, k requires 0 <= k < |hits| => LinkOf(hits[k]))
  }

  /** What the scan reads: title, a space, then text, all lower-cased. */
  function Content(title: string, text: string): string
  {
    LowerStr(title + " " + text)
  }

  /** The matches that become records for a post. */
  function KeptHits(title: string, text: string): seq<Hit>
  {
    Kept(AllHits(Content(title, text)))
  }

  /** The records `extractYouTubeLinks(title, text)` returns. */
  function Extract(title: string, text: string): seq<LinkInfo>
  {
    Links(KeptHits(title, text))
  }

  /** One more match extends the records exactly when its id is new. */
  lemma KeptSnoc(hits: seq<Hit>, h: Hit)
    ensures Kept(hits + [h]) == if h.id in IdsOf(Kept(hits)) then Kept(hits) else Kept(hits) + [h]
  {
    assert (hits + [h])[..|hits|] == hits;
  }

  /** One more match adds one record at the end and its id to the id set. */
  lemma LinksSnoc(hits: seq<Hit>, h: Hit)
    ensures IdsOf(hits + [h]) == IdsOf(hits) + {h.id}
    ensures Links(hits + [h]) == Links(hits) + [LinkOf(h)]
  {
    assert Links(hits + [h])[|hits|] == LinkOf(h);
  }

  /** The id set and the records after one more match. */
  lemma KeptStep(done: seq<Hit>, h: Hit)
    ensures h.id in IdsOf(Kept(done)) ==> Kept(done + [h]) == Kept(done)
    ensures h.id !in IdsOf(Kept(done)) ==>
      IdsOf(Kept(done + [h])) == IdsOf(Kept(done)) + {h.id}
      && Links(Kept(done + [h])) == Links(Kept(done)) + [LinkOf(h)]
  {
    KeptSnoc(done, h);
    LinksSnoc(Kept(done), h);
  }

  /** The match `exec` returns moves from the pending scan to the processed prefix. */
  lemma ScanAdvance(m: Matcher, pi: nat, s: string, from: nat, done: seq<Hit>)
    requires Sound(m, s) && from <= |s| && Exec(m, pi, s, from).Some?
    ensures var h := Exec(m, pi, s, from).value;
      done + Scan(m, pi, s, from) == (done + [h]) + Scan(m, pi, s, h.end)
  {
    var h := Exec(m, pi, s, from).value;
    assert Scan(m, pi, s, from) == [h] + Scan(m, pi, s, h.end);
  }

  /** The inner loop of `extractYouTubeLinks`: every match of pattern `pi`, left to right,
      adds a record unless its id already has one. */
  method ScanPattern(regexes: Matcher, pi: nat, content: string, ghost seen: seq<Hit>,
                     videoIds0: set<string>, foundLinks0: seq<LinkInfo>)
    returns (videoIds: set<string>, foundLinks: seq<LinkInfo>)
    requires Sound(regexes, content)
    requires videoIds0 == IdsOf(Kept(seen)) && foundLinks0 == Links(Kept(seen))
    ensures videoIds == IdsOf(Kept(seen + Scan(regexes, pi, content, 0)))
    ensures foundLinks == Links(Kept(seen + Scan(regexes, pi, content, 0)))
  {
    videoIds, foundLinks := videoIds0, foundLinks0;
    ghost var done: seq<Hit> := seen;
    var lastIndex := 0;
    var found := Exec(regexes, pi, content, lastIndex);
    while found.Some?
      invariant lastIndex <= |content|
      invariant found == Exec(regexes, pi, content, lastIndex)
      invariant done + Scan(regexes, pi, content, lastIndex) == seen + Scan(regexes, pi, content, 0)
      invariant videoIds == IdsOf(Kept(done)) && foundLinks == Links(Kept(done))
      decreases |content| - lastIndex
    {
      var h := found.value;
      ScanAdvance(regexes, pi, content, lastIndex, done);
      KeptStep(done, h);
      if h.id !in videoIds {
        videoIds := videoIds + {h.id};
        foundLinks := foundLinks + [LinkOf(h)];
      }
      done := done + [h];
      lastIndex := h.end;
      found := Exec(regexes, pi, content, lastIndex);
    }
    assert done + [] == done;
  }

  /** `extractYouTubeLinks`: each pattern in turn, each of its matches left to right,
      a record for every id not seen before. */
  method ExtractYouTubeLinks(title: string, text: string) returns (foundLinks: seq<LinkInfo>)
    ensures foundLinks == Extract(title, text)
  {
    var content := LowerStr(title + " " + text);
    var regexes := Regexes(content);
    RegexesSound(content);
    foundLinks := [];
    var videoIds: set<string> := {};
    for pi := 0 to |Patterns|
      invariant videoIds == IdsOf(Kept(Hits(regexes, content, pi)))
      invariant foundLinks == Links(Kept(Hits(regexes, content, pi)))
    {
      videoIds, foundLinks := ScanPattern(regexes, pi, content, Hits(regexes, content, pi), videoIds, foundLinks);
    }
  }

  // ------------------------------------------------------------------
  // What the scan promises

  /** `isValidVideoId`: the whole string is `[a-zA-Z0-9_-]{11}`. */
  predicate IsValidVideoId(videoId: string)
  {
    |videoId| == 11 && forall k :: 0 <= k < |videoId| ==> IsIdChar(videoId[k])
  }

  /** No upper-case ASCII letter in `s`. */
  predicate IsLowerCase(s: string)
  {
    forall k :: 0 <= k < |s| ==> !('A' <= s[k] <= 'Z')
  }

  /** A match carries a valid id, at the end of its url. */
  lemma HitIdValid(s: string, h: Hit)
    requires HitIn(s, h)
    ensures IsValidVideoId(h.id)
    ensures |h.url| > 11 && h.url[|h.url| - 11..] == h.id
  {
    forall j | 0 <= j < 11 ensures h.id[j] == s[h.end - 11 + j] {
    }
  }

  /** A match read off a lower-case text carries a lower-case id. */
  lemma HitIdLower(s: string, h: Hit)
    requires HitIn(s, h) && IsLowerCase(s)
    ensures IsLowerCase(h.id)
  {
    forall j | 0 <= j < 11 ensures h.id[j] == s[h.end - 11 + j] {
    }
  }

  /** A record as the scan builds it: a valid, lower-case id that ends its url, and
      `fullMatch` equal to `originalUrl`. */
  predicate WellFormedRecord(r: LinkInfo)
  {
    IsValidVideoId(r.videoId) && IsLowerCase(r.videoId)
    && r.fullMatch == r.originalUrl && |r.originalUrl| > 11
    && r.originalUrl[|r.originalUrl| - 11..] == r.videoId
  }

  /** The record made from a match read off a lower-case text is well formed. */
  lemma RecordWellFormed(s: string, h: Hit)
    requires IsLowerCase(s) && HitIn(s, h)
    ensures WellFormedRecord(LinkOf(h))
  {
    HitIdValid(s, h);
    HitIdLower(s, h);
  }

  /** The records made from matches read off a lower-case text are well formed. */
  lemma RecordsWellFormed(s: string, hits: seq<Hit>)
    requires IsLowerCase(s)
    requires forall k :: 0 <= k < |hits| ==> HitIn(s, hits[k])
    ensures forall r :: r in Links(Kept(hits)) ==> WellFormedRecord(r)
  {
    var kept := Kept(hits);
    forall r | r in Links(kept) ensures WellFormedRecord(r) {
      var k :| 0 <= k < |kept| && r == LinkOf(kept[k]);
      assert kept[k] in hits;
      var i :| 0 <= i < |hits| && hits[i] == kept[k];
      RecordWellFormed(s, hits[i]);
    }
  }

  /** Every record carries a valid id, in lower case because the content is lower-cased
      before the scan; its url is the matched text and ends with the id. */
  lemma ExtractIdsValid(title: string, text: string)
    ensures forall r :: r in Extract(title, text) ==> WellFormedRecord(r)
  {
    var content := Content(title, text);
    assert IsLowerCase(content);
    RegexesSound(content);
    HitsSound(Regexes(content), content, |Patterns|);
    RecordsWellFormed(content, AllHits(content));
  }

  /** No two records share an id. */
  lemma ExtractIdsUnique(title: string, text: string)
    ensures forall j, k :: 0 <= j < k < |Extract(title, text)| ==>
      Extract(title, text)[j].videoId != Extract(title, text)[k].videoId
  {
  }

  /** `Kept` agrees with the reference definition: a match is kept exactly when no earlier
      match has its id, so the first match of an id owns its record. */
  lemma {:induction false} KeptIsFirsts(hits: seq<Hit>)
    ensures Kept(hits) == Firsts(hits)
  {
    if hits != [] {
      var init := hits[..|hits| - 1];
      var h := hits[|hits| - 1];
      KeptIsFirsts(init);
      assert hits == init + [h];
      assert IdsOf(Kept(init)) == IdsOf(init);
      if FirstOfItsId(hits, |hits| - 1) {
        assert h.id !in IdsOf(init);
      } else {
        var j :| 0 <= j < |hits| - 1 && hits[j].id == h.id;
        assert init[j] in init;
      }
    }
  }

  /** `Kept` keeps the order of the matches it keeps. */
  lemma {:induction false} KeptOrdered(hits: seq<Hit>)
    requires forall j, k :: 0 <= j < k < |hits| ==> Precedes(hits[j], hits[k])
    ensures forall j, k :: 0 <= j < k < |Kept(hits)| ==> Precedes(Kept(hits)[j], Kept(hits)[k])
  {
    if hits != [] {
      var init := hits[..|hits| - 1];
      var h := hits[|hits| - 1];
      KeptOrdered(init);
      assert hits == init + [h];
      forall g | g in Kept(init) ensures Precedes(g, h) {
        var i :| 0 <= i < |init| && init[i] == g;
      }
    }
  }

  /** The records come in pattern-list order and, within a pattern, in position order. */
  lemma ExtractOrdered(title: string, text: string)
    ensures forall j, k :: 0 <= j < k < |KeptHits(title, text)| ==>
      Precedes(KeptHits(title, text)[j], KeptHits(title, text)[k])
  {
    var content := Content(title, text);
    RegexesSound(content);
    HitsSound(Regexes(content), content, |Patterns|);
    KeptOrdered(AllHits(content));
  }

  /** Only the lower-cased title and text matter: the scan is case-insensitive. */
  lemma ExtractCaseInsensitive(title: string, text: string)
    ensures Extract(title, text) == Extract(LowerStr(title), LowerStr(text))
  {
    assert Content(title, text) == Content(LowerStr(title), LowerStr(text));
  }

  /** No matches of the first `n` patterns exactly when none of them matches anywhere. */
  lemma {:induction false} HitsEmptyIff(m: Matcher, s: string, n: nat)
    requires Sound(m, s)
    ensures |Hits(m, s, n)| == 0 <==> forall pi :: 0 <= pi < n ==> Silent(m, pi, s)
  {
    if n > 0 {
      HitsEmptyIff(m, s, n - 1);
      assert |Scan(m, n - 1, s, 0)| == 0 <==> Silent(m, n - 1, s);
      assert |Hits(m, s, n)| == |Hits(m, s, n - 1)| + |Scan(m, n - 1, s, 0)|;
    }
  }

  /** A post gets no records exactly when no pattern matches at any position of its content. */
  lemma ExtractEmptyIff(title: string, text: string)
    ensures Extract(title, text) == [] <==>
      forall pi :: 0 <= pi < |Patterns| ==> MatchesNowhere(pi, Content(title, text))
  {
    var content := Content(title, text);
    var hits := AllHits(content);
    RegexesSound(content);
    HitsEmptyIff(Regexes(content), content, |Patterns|);
    forall pi | 0 <= pi < |Patterns|
      ensures Silent(Regexes(content), pi, content) <==> MatchesNowhere(pi, content)
    {
      RegexesSilent(pi, content);
    }
    if hits != [] {
      assert hits[0].id in IdsOf(hits);
    }
  }

  /** Where the first dot of a host is. */
  function FirstDot(host: string): (d: nat)
    requires IsHost(host)
    ensures d < |host| && host[d] == '.'
  {
    if host == YoutuBe then 5
    else if host == MobileYouTube then 1
    else if host == NoCookie then 16
    else if host == GamingYouTube then 6
    else 7
  }

  /** Where a host occurs, its first dot is a dot of the text. */
  lemma DotInHost(host: string, s: string, c: nat)
    requires IsHost(host) && LiteralAt(s, c, host)
    ensures c + FirstDot(host) < |s| && s[c + FirstDot(host)] == '.'
  {
    assert Lower(s[c + FirstDot(host)]) == '.';
  }

  /** A text without a dot matches no pattern: every host has one. */
  lemma NoDotNoMatch(pi: nat, s: string, i: nat)
    requires pi < |Patterns|
    requires forall k :: 0 <= k < |s| ==> s[k] != '.'
    ensures MatchAt(pi, s, i).None?
  {
    if MatchAt(pi, s, i).Some? {
      var c :| i <= c && LiteralAt(s, c, Patterns[pi].host);
      PatternHost(pi);
      DotInHost(Patterns[pi].host, s, c);
      assert false;
    }
  }

  /** A post whose title and text contain no dot has no records. */
  lemma NoDotNoLinks(title: string, text: string)
    requires '.' !in title && '.' !in text
    ensures Extract(title, text) == []
  {
    var content := Content(title, text);
    forall k | 0 <= k < |content| ensures content[k] != '.' {
      var t := title + " " + text;
      assert t[k] in title || t[k] == ' ' || t[k] in text;
    }
    forall pi | 0 <= pi < |Patterns| ensures MatchesNowhere(pi, content) {
      forall i | 0 <= i <= |content| ensures MatchAt(pi, content, i).None? {
        NoDotNoMatch(pi, content, i);
      }
    }
    ExtractEmptyIff(title, text);
  }

  // A sentence from the source's test of plain text, split in two so that the verifier
  // can check each half for dots quickly.
  const ProseStart := "This is just text"
  const ProseEnd := " about videos but no links"

  lemma ProseStartNoDot()
    ensures '.' !in ProseStart
  {
  }

  lemma ProseEndNoDot()
    ensures '.' !in ProseEnd
  {
  }

  /** Plain prose about videos, without a link, yields no records. */
  lemma PlainTextHasNoLinks()
    ensures Extract("", ProseStart + ProseEnd) == []
  {
    ProseStartNoDot();
    ProseEndNoDot();
    NoDotNoLinks("", ProseStart + ProseEnd);
  }

  // ------------------------------------------------------------------
  // extractVideoId

  /** The leftmost match of pattern `q` in `url` starts at `i` and captures `id`. */
  ghost predicate LeftmostCapture(q: nat, url: string, i: nat, id: string)
    requires q < |Patterns|
  {
    MatchAt(q, url, i).Some? && (forall j :: 0 <= j < i ==> MatchAt(q, url, j).None?) &&
    id == url[MatchAt(q, url, i).value..MatchAt(q, url, i).value + 11]
  }

  /** The match `exec` returns from 0 is the leftmost one, and `match[1]` is its capture. */
  lemma ExecCaptures(q: nat, url: string)
    requires q < |Patterns|
    requires Sound(Regexes(url), url)
    requires Exec(Regexes(url), q, url, 0).Some?
    ensures LeftmostCapture(q, url, Exec(Regexes(url), q, url, 0).value.start,
                            Exec(Regexes(url), q, url, 0).value.id)
  {
    var m := Regexes(url);
    var h := Exec(m, q, url, 0).value;
    assert m(q, h.start) == MatchAt(q, url, h.start);
    forall j | 0 <= j < h.start ensures MatchAt(q, url, j).None? {
      assert m(q, j) == MatchAt(q, url, j);
    }
  }

  /** `match[1]` of `pattern.exec(url)` from `lastIndex` 0 for pattern `q`: the id captured
      by the leftmost match, or `None` when the pattern matches nowhere. */
  function Capture(url: string, q: nat): (r: Option<string>)
    requires q < |Patterns|
    ensures r.None? <==> MatchesNowhere(q, url)
    ensures r.Some? ==> IsValidVideoId(r.value)
    ensures r.Some? ==> exists i :: 0 <= i <= |url| && LeftmostCapture(q, url, i, r.value)
  {
    RegexesSound(url);
    RegexesSilent(q, url);
    match Exec(Regexes(url), q, url, 0)
    case None => None
    case Some(h) =>
      ExecSound(Regexes(url), q, url, 0);
      HitIdValid(url, h);
      ExecCaptures(q, url);
      Some(h.id)
  }

  /** The capture of the first pattern, from `pi` on, that matches anywhere in `url`; `url`
      is not lower-cased here, so the id keeps its case. */
  function FirstCapture(url: string, pi: nat): (r: Option<string>)
    requires pi <= |Patterns|
    ensures r.Some? ==> IsValidVideoId(r.value)
    ensures r.None? <==> forall q :: pi <= q < |Patterns| ==> MatchesNowhere(q, url)
    ensures r.Some? ==>
              exists q :: pi <= q < |Patterns| && r == Capture(url, q) &&
                forall q' :: pi <= q' < q ==> Capture(url, q').None?
    decreases |Patterns| - pi
  {
    if pi == |Patterns| then None
    else if Capture(url, pi).Some? then Capture(url, pi)
    else FirstCapture(url, pi + 1)
  }

  /** `extractVideoId`: the patterns in list order, returning the first capture (null when
      no pattern matches). */
  method ExtractVideoId(url: string) returns (r: Option<string>)
    ensures r == FirstCapture(url, 0)
  {
    var regexes := Regexes(url);
    RegexesSound(url);
    for pi := 0 to |Patterns|
      invariant FirstCapture(url, 0) == FirstCapture(url, pi)
    {
      var found := Exec(regexes, pi, url, 0);
      assert Capture(url, pi) == if found.Some? then Some(found.value.id) else None;
      if found.Some? {
        return Some(found.value.id);
      }
    }
    return None;
  }

  // ------------------------------------------------------------------
  // Rewriting an id

  const YewTube := "yewtu.be"

  /** The privacy-friendly front ends offered, in order. */
  const Instances: seq<string> := [YewTube, "invidio.us", "piped.video"]

  /** `https://<host>/watch?v=<id>`. */
  function WatchUrl(host: string, videoId: string): string
  {
    "https://" + host + "/watch?v=" + videoId
  }

  /** Reads the id back from a watch url on `host`. */
  function WatchedId(host: string, url: string): Option<string>
  {
    var prefix := "https://" + host + "/watch?v=";
    if |prefix| <= |url| && url[..|prefix|] == prefix then Some(url[|prefix|..]) else None
  }

  /** The watch url of a host gives its id back, whatever the id. */
  lemma WatchUrlRoundTrip(host: string, videoId: string)
    ensures WatchedId(host, WatchUrl(host, videoId)) == Some(videoId)
  {
    var prefix := "https://" + host + "/watch?v=";
    assert WatchUrl(host, videoId) == prefix + videoId;
  }

  /** `convertToYewTube`: the yewtu.be watch url of the record's id, or the original url
      unchanged when the id is empty. */
  function ConvertToYewTube(link: LinkInfo): (r: string)
    ensures link.videoId != "" ==> WatchedId(YewTube, r) == Some(link.videoId)
    ensures link.videoId == "" ==> r == link.originalUrl
  {
    if link.videoId == "" then link.originalUrl
    else
      WatchUrlRoundTrip(YewTube, link.videoId);
      WatchUrl(YewTube, link.videoId)
  }

  /** `generateAlternatives`: one watch url per front end, in order. */
  function GenerateAlternatives(videoId: string): (r: seq<string>)
    ensures |r| == |Instances|
    ensures forall k :: 0 <= k < |r| ==> WatchedId(Instances[k], r[k]) == Some(videoId)
  {
    var r := seq(|Instances|, k requires 0 <= k < |Instances| => WatchUrl(Instances[k], videoId));
    assert forall k :: 0 <= k < |r| ==> WatchedId(Instances[k], r[k]) == Some(videoId) by {
      forall k | 0 <= k < |r| ensures WatchedId(Instances[k], r[k]) == Some(videoId) {
        WatchUrlRoundTrip(Instances[k], videoId);
      }
    }
    r
  }

  /** The first alternative is the link the comment gives. */
  lemma FirstAlternativeIsYewTube(link: LinkInfo)
    requires link.videoId != ""
    ensures GenerateAlternatives(link.videoId)[0] == ConvertToYewTube(link)
  {
  }

  const ThumbnailPrefix := "https://yewtu.be/vi/"
  const ThumbnailSuffix := "/maxresdefault.jpg"

  /** `getYewTubeThumbnail`: the full-size thumbnail of a video on yewtu.be. */
  function GetYewTubeThumbnail(videoId: string): (r: string)
    ensures ThumbnailId(r) == Some(videoId)
  {
    var r := ThumbnailPrefix + videoId + ThumbnailSuffix;
    assert r[..|ThumbnailPrefix|] == ThumbnailPrefix;
    assert r[|r| - |ThumbnailSuffix|..] == ThumbnailSuffix;
    assert r[|ThumbnailPrefix|..|r| - |ThumbnailSuffix|] == videoId;
    r
  }

  /** Reads the id back from a thumbnail url. */
  function ThumbnailId(url: string): Option<string>
  {
    var n := |ThumbnailPrefix| + |ThumbnailSuffix|;
    if n <= |url| && url[..|ThumbnailPrefix|] == ThumbnailPrefix && url[|url| - |ThumbnailSuffix|..] == ThumbnailSuffix
    then Some(url[|ThumbnailPrefix|..|url| - |ThumbnailSuffix|])
    else None
  }

  // ------------------------------------------------------------------
  // containsYouTubeIndicators

  /** `lit` occurs somewhere in `s`, ignoring ASCII case. */
  predicate ContainsIgnoringCase(s: string, lit: string)
  {
    exists c :: 0 <= c <= |s| && LiteralAt(s, c, lit)
  }

  /** The class `\w`: `[A-Za-z0-9_]`. */
  predicate IsWordChar(c: char)
  {
    'a' <= c <= 'z' || 'A' <= c <= 'Z' || '0' <= c <= '9' || c == '_'
  }

  /** `/\byt\b/i`: "yt" as a word of its own. */
  predicate HasWordYt(s: string)
  {
    exists c :: 0 <= c <= |s| && LiteralAt(s, c, "yt")
      && (c == 0 || !IsWordChar(s[c - 1]))
      && (c + 2 == |s| || !IsWordChar(s[c + 2]))
  }

  /** `containsYouTubeIndicators`: any of the five hints, tried in order. */
  function ContainsYouTubeIndicators(content: string): bool
  {
    ContainsIgnoringCase(content, "youtube")
    || ContainsIgnoringCase(content, "youtu.be")
    || ContainsIgnoringCase(content, "watch?v=")
    || HasWordYt(content)
    || ContainsIgnoringCase(content, "video")
  }

  // ------------------------------------------------------------------
  // How the pieces fit together

  /** A literal that holds at `c` holds for each of its slices. */
  lemma LiteralSlice(s: string, c: nat, lit: string, o: nat, sub: string)
    requires LiteralAt(s, c, lit) && o + |sub| <= |lit| && lit[o..o + |sub|] == sub
    ensures LiteralAt(s, c + o, sub)
  {
    forall k | 0 <= k < |sub| ensures Lower(s[c + o + k]) == sub[k] {
      assert sub[k] == lit[o + k];
    }
  }

  /** Lower-casing first does not change a case-insensitive comparison. */
  lemma LiteralAtLower(s: string, c: nat, lit: string)
    requires LiteralAt(LowerStr(s), c, lit)
    ensures LiteralAt(s, c, lit)
  {
    forall k | 0 <= k < |lit| ensures Lower(s[c + k]) == lit[k] {
      assert Lower(LowerStr(s)[c + k]) == lit[k];
    }
  }

  /** Each host contains "youtube", or is "youtu.be". */
  lemma HostShowsIndicator(host: string, s: string, c: nat)
    requires IsHost(host) && LiteralAt(s, c, host)
    ensures ContainsIgnoringCase(s, "youtube") || ContainsIgnoringCase(s, "youtu.be")
  {
    if host == YoutuBe {
      LiteralSlice(s, c, host, 0, "youtu.be");
    } else if host == MobileYouTube {
      LiteralSlice(s, c, host, 2, "youtube");
    } else if host == GamingYouTube {
      LiteralSlice(s, c, host, 7, "youtube");
    } else {
      LiteralSlice(s, c, host, 0, "youtube");
    }
  }

  /** A match of any pattern puts "youtube" or "youtu.be" in the text. */
  lemma MatchShowsIndicator(pi: nat, s: string, i: nat)
    requires pi < |Patterns| && MatchAt(pi, s, i).Some?
    ensures ContainsIgnoringCase(s, "youtube") || ContainsIgnoringCase(s, "youtu.be")
  {
    var c :| i <= c && LiteralAt(s, c, Patterns[pi].host);
    PatternHost(pi);
    HostShowsIndicator(Patterns[pi].host, s, c);
  }

  /** Every post with a detected link also passes the cheaper indicator test. */
  lemma ExtractImpliesIndicators(title: string, text: string)
    requires Extract(title, text) != []
    ensures ContainsYouTubeIndicators(title + " " + text)
  {
    var content := Content(title, text);
    ExtractEmptyIff(title, text);
    var pi :| 0 <= pi < |Patterns| && !MatchesNowhere(pi, content);
    var i :| 0 <= i <= |content| && MatchAt(pi, content, i).Some?;
    MatchShowsIndicator(pi, content, i);
    if ContainsIgnoringCase(content, "youtube") {
      var c :| 0 <= c <= |content| && LiteralAt(content, c, "youtube");
      LiteralAtLower(title + " " + text, c, "youtube");
    } else {
      var c :| 0 <= c <= |content| && LiteralAt(content, c, "youtu.be");
      LiteralAtLower(title + " " + text, c, "youtu.be");
    }
  }

  /** The only dot of `s` is at `p`. */
  predicate LoneDotAt(s: string, p: nat)
  {
    p < |s| && s[p] == '.' && forall j :: 0 <= j < |s| && j != p ==> s[j] != '.'
  }

  /** A host that occurs in a text with a single dot has its first dot on it. */
  lemma HostAtLoneDot(host: string, s: string, c: nat, p: nat)
    requires IsHost(host) && LiteralAt(s, c, host) && LoneDotAt(s, p)
    ensures c + FirstDot(host) == p
    ensures Lower(s[c]) == host[0] && Lower(s[c + 1]) == host[1]
  {
    DotInHost(host, s, c);
  }

  /** When the only dot of `s` sits where no host can have its first dot, no host occurs:
      it would have to put its first dot on that dot, and then starts with the wrong letter. */
  lemma NoHostAroundLoneDot(host: string, s: string, c: nat, p: nat)
    requires IsHost(host) && LoneDotAt(s, p) && 7 <= p < 16
    requires Lower(s[p - 7]) != 'y' && Lower(s[p - 6]) != 'g' && Lower(s[p - 4]) != 'o' && Lower(s[p - 1]) != 'm'
    ensures !LiteralAt(s, c, host)
  {
    if LiteralAt(s, c, host) {
      HostAtLoneDot(host, s, c, p);
      assert false;
    }
  }

  /** Nothing matches around such a dot. */
  lemma NoMatchAroundLoneDot(pi: nat, s: string, i: nat, p: nat)
    requires pi < |Patterns| && LoneDotAt(s, p) && 7 <= p < 16
    requires Lower(s[p - 7]) != 'y' && Lower(s[p - 6]) != 'g' && Lower(s[p - 4]) != 'o' && Lower(s[p - 1]) != 'm'
    ensures MatchAt(pi, s, i).None?
  {
    if MatchAt(pi, s, i).Some? {
      var c :| i <= c && LiteralAt(s, c, Patterns[pi].host);
      PatternHost(pi);
      NoHostAroundLoneDot(Patterns[pi].host, s, c, p);
      assert false;
    }
  }

  /** The yewtu.be link the bot writes for a video. */
  lemma MirrorUrlDot(videoId: string)
    requires IsValidVideoId(videoId)
    ensures LoneDotAt(WatchUrl(YewTube, videoId), 13)
  {
    var u := WatchUrl(YewTube, videoId);
    forall j | 0 <= j < |u| && j != 13 ensures u[j] != '.' {
      if j >= 25 {
        assert u[j] == videoId[j - 25];
      }
    }
  }

  /** A converted link is not taken for a YouTube link again: `extractVideoId` finds nothing
      in it. */
  lemma ConvertedNotDetected(link: LinkInfo)
    requires IsValidVideoId(link.videoId)
    ensures FirstCapture(ConvertToYewTube(link), 0).None?
  {
    var u := ConvertToYewTube(link);
    MirrorUrlDot(link.videoId);
    forall q | 0 <= q < |Patterns| ensures MatchesNowhere(q, u) {
      forall i | 0 <= i <= |u| ensures MatchAt(q, u, i).None? {
        NoMatchAroundLoneDot(q, u, i, 13);
      }
    }
  }
}
