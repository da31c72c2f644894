/** The bot's memory of which Stacker News posts it has already handled: an in-memory
    set of post ids, mirrored to a file in a GitHub gist. The gist requests (create, get,
    update) are not modelled; each method receives what its request gave back. */
module State {
  import opened Util

  const FileName := "yewtubot-processed-posts.json"
  const Version := "1.0.0"

  /** A JavaScript `Set` iterates in insertion order, so it is a sequence without repeats. */
  predicate NoDup(s: seq<string>)
  {
    forall i, j :: 0 <= i < j < |s| ==> s[i] != s[j]
  }

  /** `new Set(xs)` listed in iteration order: each id where it first occurs. */
  function Distinct(xs: seq<string>): (r: seq<string>)
    ensures NoDup(r)
    ensures forall x :: x in r <==> x in xs
    decreases |xs|
  {
    if |xs| == 0 then []
    else
      var d := Distinct(xs[..|xs| - 1]);
      assert xs == xs[..|xs| - 1] + [xs[|xs| - 1]];
      if xs[|xs| - 1] in d then d else d + [xs[|xs| - 1]]
  }

  /** A list that already has no repeats comes through `new Set` unchanged. */
  lemma {:induction false} DistinctOfNoDup(xs: seq<string>)
    requires NoDup(xs)
    ensures Distinct(xs) == xs
  {
    if |xs| > 0 {
      var init := xs[..|xs| - 1];
      assert NoDup(init);
      DistinctOfNoDup(init);
      assert xs[|xs| - 1] !in init by {
        forall k | 0 <= k < |init| ensures init[k] != xs[|xs| - 1] {
          assert init[k] == xs[k];
        }
      }
      assert xs == init + [xs[|xs| - 1]];
    }
  }

  /** The part of the gist file the model keeps (creation and save timestamps are left out). */
  datatype SavedDocument = SavedDocument(version: string, processedPosts: seq<string>, totalProcessed: nat)

  /** The document a save writes for the current set. */
  function Document(posts: seq<string>): SavedDocument
  {
    SavedDocument(Version, posts, |posts|)
  }

  /** What `gists.create` gave back. */
  datatype CreateReply = Created(id: string) | CreateFailed

  /** What reading the gist gave back: the request failed, the gist has no such file, the
      file could not be parsed (or reading its fields threw), or the parsed document with
      its `processedPosts` field (`None` when absent or null). */
  datatype LoadReply = GetFailed | NoFile | Broken | Parsed(processedPosts: Option<seq<string>>)

  /** The set after a load, given the set before it. */
  function Loaded(reply: LoadReply, current: seq<string>): seq<string>
  {
    match reply
    case GetFailed => []
    case NoFile => current
    case Broken => []
    case Parsed(None) => []
    case Parsed(Some(xs)) => Distinct(xs)
  }

  /** Loading never leaves a repeated id in the set. */
  lemma LoadedNoDup(reply: LoadReply, current: seq<string>)
    requires NoDup(current)
    ensures NoDup(Loaded(reply, current))
    ensures reply.Parsed? && reply.processedPosts.Some? ==>
              forall x :: x in Loaded(reply, current) <==> x in reply.processedPosts.value
    ensures !reply.NoFile? && !(reply.Parsed? && reply.processedPosts.Some?) ==> |Loaded(reply, current)| == 0
  {
  }

  /** What a save writes is what a later load reads back. */
  lemma SaveLoadRoundTrip(posts: seq<string>, current: seq<string>)
    requires NoDup(posts)
    ensures Loaded(Parsed(Some(Document(posts).processedPosts)), current) == posts
    ensures Document(posts).totalProcessed == |Loaded(Parsed(Some(Document(posts).processedPosts)), current)|
  {
    DistinctOfNoDup(posts);
  }

  /** Whether inserting the post that brings the set to `size` triggers a save. */
  predicate SaveDue(size: nat)
  {
    size % 10 == 1 || size <= 10
  }

  /** The batching invariant between the set's size and its size at the last save
      attempt: up to ten posts every insertion is saved, and beyond that the posts not
      yet saved are those after the last size ending in 1. */
  predicate Batched(size: nat, attempted: nat)
  {
    attempted <= size &&
    (size <= 10 ==> attempted == size) &&
    size - attempted <= (size + 9) % 10
  }

  /** Inserting a fresh post keeps the batching invariant. */
  lemma BatchedAfterInsert(size: nat, attempted: nat)
    requires Batched(size, attempted)
    ensures Batched(size + 1, if SaveDue(size + 1) then size + 1 else attempted)
  {
    if !SaveDue(size + 1) {
      assert (size + 9) % 10 != 9;
      assert (size + 10) % 10 == (size + 9) % 10 + 1;
    }
  }

  /** At most nine marked posts are ever missing from the last save attempt. */
  lemma BatchedBound(size: nat, attempted: nat)
    requires Batched(size, attempted)
    ensures size - attempted <= 9
  {
  }

  /** How many saves `size` fresh insertions into an empty set trigger. */
  function SavesWhileGrowing(size: nat): nat
  {
    if size == 0 then 0 else SavesWhileGrowing(size - 1) + (if SaveDue(size) then 1 else 0)
  }

  /** Every one of the first ten insertions saves, then one in ten. */
  lemma {:induction false} SavesWhileGrowingCount(size: nat)
    ensures SavesWhileGrowing(size) == if size <= 10 then size else 10 + (size - 1) / 10
  {
    if size > 0 {
      SavesWhileGrowingCount(size - 1);
      if size > 11 {
        assert (size - 1) / 10 == (size - 2) / 10 + (if size % 10 == 1 then 1 else 0);
      }
    }
  }

  /** The set after marking `ids` one after another, starting from `posts`: an id
      already in the set is skipped, a fresh one is appended. */
  function MarkedAll(posts: seq<string>, ids: seq<string>): seq<string>
    decreases |ids|
  {
    if |ids| == 0 then posts
    else
      var p := MarkedAll(posts, ids[..|ids| - 1]);
      if ids[|ids| - 1] in p then p else p + [ids[|ids| - 1]]
  }

  /** Marking keeps the set's earlier ids in place, adds exactly the marked ids, and
      never repeats one. */
  lemma {:induction false} MarkedAllContents(posts: seq<string>, ids: seq<string>)
    ensures |posts| <= |MarkedAll(posts, ids)| && MarkedAll(posts, ids)[..|posts|] == posts
    ensures forall x :: x in MarkedAll(posts, ids) <==> x in posts || x in ids
    ensures NoDup(posts) ==> NoDup(MarkedAll(posts, ids))
    decreases |ids|
  {
    if |ids| > 0 {
      var init := ids[..|ids| - 1];
      var x := ids[|ids| - 1];
      MarkedAllContents(posts, init);
      assert ids == init + [x];
    }
  }

  /** Whether marking `x` in the set `p` triggers a save: `x` is fresh and the grown set
      is due for one. */
  predicate SavesOnMark(p: seq<string>, x: string)
  {
    x !in p && SaveDue(|p| + 1)
  }

  /** The save attempts that marking `ids` one after another triggers. */
  function SavesFor(posts: seq<string>, ids: seq<string>): nat
    decreases |ids|
  {
    if |ids| == 0 then 0
    else
      var p := MarkedAll(posts, ids[..|ids| - 1]);
      SavesFor(posts, ids[..|ids| - 1]) + (if SavesOnMark(p, ids[|ids| - 1]) then 1 else 0)
  }

  /** The document last written after marking `ids` one after another, where `oks[k]`
      says whether the write a save attempt during mark `k` would make succeeds, and
      `before` is the one written before the first mark. */
  function WrittenAfter(posts: seq<string>, ids: seq<string>, oks: seq<bool>,
                        before: Option<SavedDocument>): Option<SavedDocument>
    requires |oks| == |ids|
    decreases |ids|
  {
    if |ids| == 0 then before
    else
      var p := MarkedAll(posts, ids[..|ids| - 1]);
      var x := ids[|ids| - 1];
      if SavesOnMark(p, x) && oks[|ids| - 1] then Some(Document(p + [x]))
      else WrittenAfter(posts, ids[..|ids| - 1], oks[..|ids| - 1], before)
  }

  /** Marking one more id appends it unless the set has it already. */
  lemma MarkedAllSnoc(posts: seq<string>, ids: seq<string>, x: string)
    ensures MarkedAll(posts, ids + [x]) ==
              if x in MarkedAll(posts, ids) then MarkedAll(posts, ids) else MarkedAll(posts, ids) + [x]
  {
    assert (ids + [x])[..|ids|] == ids;
  }

  /** Marking one more id adds a save attempt exactly when the id is fresh and the new
      size is due for a save. */
  lemma SavesForSnoc(posts: seq<string>, ids: seq<string>, x: string)
    ensures SavesFor(posts, ids + [x]) ==
              SavesFor(posts, ids) +
              if SavesOnMark(MarkedAll(posts, ids), x) then 1 else 0
  {
    var longer := ids + [x];
    assert longer[..|longer| - 1] == ids && longer[|longer| - 1] == x;
  }

  /** Marking one more id writes the grown set exactly when that save is due and its
      write succeeds; otherwise the written document stays. */
  lemma WrittenAfterSnoc(posts: seq<string>, ids: seq<string>, x: string, oks: seq<bool>, ok: bool,
                         before: Option<SavedDocument>)
    requires |oks| == |ids|
    ensures WrittenAfter(posts, ids + [x], oks + [ok], before) ==
              if SavesOnMark(MarkedAll(posts, ids), x) && ok
              then Some(Document(MarkedAll(posts, ids) + [x]))
              else WrittenAfter(posts, ids, oks, before)
  {
    assert (ids + [x])[..|ids|] == ids;
    assert (oks + [ok])[..|oks|] == oks;
  }

  /** Marking distinct ids that are all fresh appends them in order, and, from an empty
      set, saves exactly as often as `SavesWhileGrowing` counts. */
  lemma {:induction false} MarkedAllFresh(ids: seq<string>)
    requires NoDup(ids)
    ensures MarkedAll([], ids) == ids
    ensures SavesFor([], ids) == SavesWhileGrowing(|ids|)
  {
    if |ids| > 0 {
      var init := ids[..|ids| - 1];
      assert NoDup(init);
      MarkedAllFresh(init);
      assert ids[|ids| - 1] !in init by {
        forall k | 0 <= k < |init| ensures init[k] != ids[|ids| - 1] {
          assert init[k] == ids[k];
        }
      }
      assert MarkedAll([], ids) == init + [ids[|ids| - 1]];
      assert ids == init + [ids[|ids| - 1]];
      assert SavesOnMark(init, ids[|ids| - 1]) == SaveDue(|ids|);
      assert SavesFor([], ids) == SavesFor([], init) + (if SaveDue(|ids|) then 1 else 0);
    }
  }

  datatype Stats = Stats(processedPostsCount: nat, gistId: string)

  class StateManager {
    /** The gist holding the file; "" when none is configured (JavaScript treats an
        absent and an empty GIST_ID alike). */
    var gistId: string
    /** The set of processed post ids, in insertion order. */
    var processedPosts: seq<string>
    /** The document this manager last wrote to the gist, if any. */
    var written: Option<SavedDocument>
    /** Bookkeeping: the number of save attempts, and the set's size at the last one
        (or at the last load, whose posts came from the gist). */
    ghost var saveAttempts: nat
    ghost var attemptedSize: nat

    ghost predicate Valid()
      reads this
    {
      NoDup(processedPosts) && Batched(|processedPosts|, attemptedSize)
    }

    constructor(gistId: string)
      ensures Valid()
      ensures this.gistId == gistId && processedPosts == [] && written == None
      ensures saveAttempts == 0
    {
      this.gistId := gistId;
      processedPosts := [];
      written := None;
      saveAttempts := 0;
      attemptedSize := 0;
    }

    /** Creates a gist holding an empty document; a failure is passed on to the caller. */
    method CreateNewGist(reply: CreateReply) returns (ok: bool)
      modifies this`gistId, this`written
      ensures ok <==> reply.Created?
      ensures ok ==> gistId == reply.id && written == Some(Document([]))
      ensures !ok ==> gistId == old(gistId) && written == old(written)
    {
      match reply {
        case Created(id) =>
          gistId := id;
          written := Some(Document([]));
          ok := true;
        case CreateFailed =>
          ok := false;
      }
    }

    /** Creates a gist when none is configured, then loads the set. Fails exactly when
        the creation fails; a failed load is not a failure. */
    method Initialize(create: CreateReply, load: LoadReply) returns (ok: bool)
      requires Valid()
      modifies this
      ensures Valid()
      ensures ok <==> old(gistId) != "" || create.Created?
      ensures ok ==> gistId == (if old(gistId) == "" then create.id else old(gistId))
      ensures ok ==> processedPosts == Loaded(load, old(processedPosts))
      ensures !ok ==> gistId == old(gistId) && processedPosts == old(processedPosts)
      ensures written == if old(gistId) == "" && create.Created? then Some(Document([])) else old(written)
      ensures saveAttempts == old(saveAttempts)
    {
      if gistId == "" {
        ok := CreateNewGist(create);
        if !ok {
          return;
        }
      }
      LoadProcessedPosts(load);
      ok := true;
    }

    /** Replaces the set with the one read from the gist; an error of any kind empties
        it, and a gist without the file leaves it as it is. */
    method LoadProcessedPosts(reply: LoadReply)
      requires Valid()
      modifies this`processedPosts, this`attemptedSize
      ensures Valid()
      ensures processedPosts == Loaded(reply, old(processedPosts))
    {
      match reply {
        case GetFailed =>
          processedPosts := [];
        case NoFile =>
          return;
        case Broken =>
          processedPosts := [];
        case Parsed(posts) =>
          var list := if posts.Some? then posts.value else [];
          processedPosts := Distinct(list);
          CleanupOldPosts();
      }
      attemptedSize := |processedPosts|;
    }

    /** Post ids carry no timestamps, so nothing is ever dropped. */
    method CleanupOldPosts()
      ensures unchanged(this)
    {
    }

    method HasProcessedPost(postId: string) returns (r: bool)
      ensures r <==> postId in processedPosts
    {
      r := postId in processedPosts;
    }

    /** Adds the id unless it is there already; a fresh insertion saves while the set
        has at most ten ids, and afterwards whenever its size ends in 1. */
    method MarkPostAsProcessed(postId: string, writeOk: bool)
      requires Valid()
      modifies this`processedPosts, this`written, this`saveAttempts, this`attemptedSize
      ensures Valid()
      ensures postId in processedPosts
      ensures |processedPosts| - attemptedSize <= 9
      ensures processedPosts == if old(postId in processedPosts) then old(processedPosts)
                                else old(processedPosts) + [postId]
      ensures saveAttempts == old(saveAttempts) + if SavesOnMark(old(processedPosts), postId) then 1 else 0
      ensures written == if SavesOnMark(old(processedPosts), postId) && writeOk
                         then Some(Document(old(processedPosts) + [postId]))
                         else old(written)
    {
      if postId in processedPosts {
        BatchedBound(|processedPosts|, attemptedSize);
        return;
      }
      BatchedAfterInsert(|processedPosts|, attemptedSize);
      processedPosts := processedPosts + [postId];
      if SaveDue(|processedPosts|) {
        SaveProcessedPosts(writeOk);
      }
      BatchedBound(|processedPosts|, attemptedSize);
    }

    /** Writes the whole set to the gist. A failed write is swallowed and changes nothing
        but the count of attempts. */
    method SaveProcessedPosts(writeOk: bool)
      modifies this`written, this`saveAttempts, this`attemptedSize
      ensures attemptedSize == |processedPosts|
      ensures saveAttempts == old(saveAttempts) + 1
      ensures written == if writeOk then Some(Document(processedPosts)) else old(written)
    {
      saveAttempts := saveAttempts + 1;
      attemptedSize := |processedPosts|;
      if writeOk {
        written := Some(Document(processedPosts));
      }
    }

    method GetStats() returns (stats: Stats)
      ensures stats.processedPostsCount == |processedPosts| && stats.gistId == gistId
    {
      stats := Stats(|processedPosts|, gistId);
    }

    /** Saves once more, whatever the batching rule says. */
    method Shutdown(writeOk: bool)
      requires Valid()
      modifies this`written, this`saveAttempts, this`attemptedSize
      ensures Valid()
      ensures saveAttempts == old(saveAttempts) + 1
      ensures written == if writeOk then Some(Document(processedPosts)) else old(written)
    {
      SaveProcessedPosts(writeOk);
    }
  }
}
