# YewTuBot in Dafny

YewTuBot watches recent Stacker News posts for YouTube links. For every post it has not
handled before, it does four things:

- it comments with privacy-friendly yewtu.be links;
- it announces the find in a Nostr text note;
- it publishes the note to five relays;
- it remembers the post id in a JSON file kept in a GitHub gist.

This project models the bot's core in Dafny and proves what the code promises. It has
five modules, one per source file plus a shared helper module:

- `Util` (`util.dfy`) holds the shared helpers:
  - an `Option` type;
  - JavaScript's `Array.prototype.join`;
  - the decimal rendering of a count;
  - `Blocks`, which splits a message back into its blank-line separated paragraphs.
- `YouTube` (`youtube_detector.dfy`) is `YouTubeDetector`:
  - All eleven regular expressions are modelled exactly. This includes the `g` and `i`
    flags, backtracking over the optional `https?://` and `www.` groups, and the greedy
    `.*[&?]v=` tails.
  - `exec` is modelled with its `lastIndex` and leftmost-match behaviour.
  - `extractYouTubeLinks` is a nested loop with de-duplication by id.
  - `extractVideoId` is a loop with an early return.
  - The small rewriting functions are modelled too.
- `State` (`state_manager.dfy`) is `StateManager`, a class whose fields the methods
  update:
  - the gist id;
  - the set of processed ids, as an insertion-ordered sequence without repeats;
  - the last document written to the gist.

  Each gist request becomes a parameter that says what the request gave back.
- `Nostr` (`nostr_client.dfy`) is `NostrClient`:
  - the key checks of `initialize`;
  - the event `publishNote` builds;
  - how the per-relay outcomes become one yes or no.

  Key decoding and derivation are function parameters. Signing success and each relay's
  outcome are inputs.
- `Bot` (`bot.dfy`) is `YewTuBot`:
  - `initialize`;
  - `run` (start-up, the fetch with its fallback, and the counting loop);
  - `processPost`;
  - `postToNostr`;
  - the comment and note texts.

  What Stacker News gave back is input: the posts and whether the comment went through.

## Model

| member | source | states |
|---|---|---|
| YouTube.LowerStr | src/youtube_detector.js:39 | `toLowerCase` keeps the length and lower-cases every character (ASCII letters) |
| YouTube.PatternHost | src/youtube_detector.js:6-35 | each of the eleven patterns names one of the five YouTube hosts |
| YouTube.LineEnd | src/youtube_detector.js:9 | the greedy `.*` runs up to the first line terminator and covers none |
| YouTube.LastVParam | src/youtube_detector.js:9 | backtracking hands over to `[&?]v=` at the rightmost position that works; positions to its right do not work, and `None` means no position does |
| YouTube.TailCapture | src/youtube_detector.js:8-9 | a successful tail leaves an 11-character id `[a-zA-Z0-9_-]{11}` at the capture |
| YouTube.CoreThenTail | src/youtube_detector.js:8 | a capture after host and path is an id, and the host occurs literally (case-insensitive) |
| YouTube.AfterWww | src/youtube_detector.js:8 | with or without the optional `www.`, a capture is an id after an occurrence of the host |
| YouTube.MatchAt | src/youtube_detector.js:6-35 | a match of pattern `pi` starting at `i` captures an id after `i`, and its host occurs in the text |
| YouTube.RegexesSound | src/youtube_detector.js:6-35 | the eleven patterns form a matcher whose every capture is a valid id after the match start |
| YouTube.RegexesSilent | src/youtube_detector.js:51 | the matcher reports nothing for a pattern exactly when that pattern matches at no position |
| YouTube.Leftmost | src/youtube_detector.js:51 | the first start position at or after `from` that matches; no earlier one matches, and `None` means none matches |
| YouTube.Exec | src/youtube_detector.js:49-51 | `exec` from `lastIndex` returns the leftmost match at or after it, which lies inside the text, or null exactly when there is none |
| YouTube.ExecSound | src/youtube_detector.js:51-52 | `match[0]` is the matched text and `match[1]` its last 11 characters, an id |
| YouTube.ScanSound | src/youtube_detector.js:49-65 | the `while (exec)` loop returns matches of one pattern, left to right and without overlap |
| YouTube.HitsSound | src/youtube_detector.js:45-66 | all matches are read off the text, ordered pattern by pattern and then by position |
| YouTube.Kept | src/youtube_detector.js:54-61 | de-duplication keeps the id set, keeps only matches that occurred, and leaves no two records with one id |
| YouTube.Links | src/youtube_detector.js:57-61 | one record per kept match, `{originalUrl: match[0], videoId: match[1], fullMatch: match[0]}` |
| YouTube.KeptSnoc | src/youtube_detector.js:54 | a further match adds a record exactly when its id has none yet |
| YouTube.LinksSnoc | src/youtube_detector.js:55-61 | a new record goes to the end of `foundLinks` and its id into `videoIds` |
| YouTube.KeptStep | src/youtube_detector.js:54-61 | one iteration of the inner loop updates `videoIds` and `foundLinks` as the de-duplication rule says |
| YouTube.ScanAdvance | src/youtube_detector.js:51 | the match `exec` returns moves from the pending matches to the processed ones, and scanning resumes at its end |
| YouTube.ScanPattern | src/youtube_detector.js:46-65 | the inner loop leaves `videoIds` and `foundLinks` as the de-duplication of all matches so far |
| YouTube.Scan | src/youtube_detector.js:49-65 | the matches the `while (exec)` loop visits for one pattern (a definition; `ScanSound` states their properties) |
| YouTube.Extract | src/youtube_detector.js:38-73 | the records `extractYouTubeLinks` returns (a definition; `ExtractIdsValid`, `ExtractIdsUnique`, `ExtractOrdered`, `ExtractEmptyIff` and `KeptIsFirsts` state its properties) |
| YouTube.IsValidVideoId | src/youtube_detector.js:90-92 | `/^[a-zA-Z0-9_-]{11}$/`: exactly eleven characters, each a letter, digit, `_` or `-` (a definition; `HitIdValid` and `ExtractIdsValid` show every captured id meets it) |
| YouTube.ContainsYouTubeIndicators | src/youtube_detector.js:123-133 | any of "youtube", "youtu.be", "watch?v=", the word "yt", or "video", ignoring case (a definition; `ExtractImpliesIndicators` relates it to the scan) |
| YouTube.ExtractYouTubeLinks | src/youtube_detector.js:38-73 | the nested loop returns exactly `Extract(title, text)` |
| YouTube.HitIdValid | src/youtube_detector.js:52-56 | every matched id satisfies `isValidVideoId` and ends the matched url |
| YouTube.HitIdLower | src/youtube_detector.js:39 | ids read off the lower-cased content are lower case |
| YouTube.RecordWellFormed | src/youtube_detector.js:57-61 | a record made from a match has a valid lower-case id, ends its url with it, and has `fullMatch == originalUrl` |
| YouTube.RecordsWellFormed | src/youtube_detector.js:57-61 | the same holds for every record kept from a list of matches |
| YouTube.ExtractIdsValid | src/youtube_detector.js:38-73 | every record returned is well formed |
| YouTube.ExtractIdsUnique | src/youtube_detector.js:41-55 | no two records share a video id |
| YouTube.KeptIsFirsts | src/youtube_detector.js:54-55 | the loop's de-duplication equals the reference definition, in which the first match of an id owns its record |
| YouTube.KeptOrdered | src/youtube_detector.js:54-61 | de-duplication keeps the matches' order |
| YouTube.ExtractOrdered | src/youtube_detector.js:45-66 | the records come in pattern-list order and, within a pattern, by position in the text |
| YouTube.ExtractCaseInsensitive | src/youtube_detector.js:39 | only the lower-cased title and text matter |
| YouTube.HitsEmptyIff | src/youtube_detector.js:45-66 | the scan finds no match exactly when no pattern matches anywhere |
| YouTube.ExtractEmptyIff | src/youtube_detector.js:38-73 | a post gets no records exactly when no pattern matches at any position of `title + " " + text` |
| YouTube.FirstDot | src/youtube_detector.js:6-35 | every host contains a dot, at the given position |
| YouTube.DotInHost | src/youtube_detector.js:6-35 | where a host occurs in a text, the text has a dot |
| YouTube.NoDotNoMatch | src/youtube_detector.js:6-35 | a text without a dot matches no pattern at any position |
| YouTube.NoDotNoLinks | src/youtube_detector.js:38-73 | a title and text without a dot yield no records |
| YouTube.PlainTextHasNoLinks | src/test_file.js:55-59 | "This is just text about videos but no links" yields no records |
| YouTube.LeftmostCapture | src/youtube_detector.js:98-99 | the leftmost match of a pattern starts at `i` and `match[1]` is the id it captures (a definition) |
| YouTube.ExecCaptures | src/youtube_detector.js:97-99 | `exec` from `lastIndex` 0 returns the leftmost match, and its id is that match's capture |
| YouTube.Capture | src/youtube_detector.js:97-99 | `match[1]` of one pattern's `exec` on the url: `None` exactly when the pattern matches nowhere, otherwise a valid id captured by the leftmost match |
| YouTube.FirstCapture | src/youtube_detector.js:95-104 | the capture of the first pattern, in list order, that matches anywhere in the url. The patterns before it capture nothing. The result is a valid id, and `None` exactly when no pattern matches |
| YouTube.ExtractVideoId | src/youtube_detector.js:95-104 | the loop with its early return computes exactly `FirstCapture(url, 0)` |
| YouTube.WatchUrlRoundTrip | src/youtube_detector.js:112-120 | `https://<host>/watch?v=<id>` gives its id back |
| YouTube.ConvertToYewTube | src/youtube_detector.js:75-87 | a record with an id becomes the yewtu.be watch url of that id; one without an id keeps its original url |
| YouTube.GenerateAlternatives | src/youtube_detector.js:112-120 | one watch url per front end, in the order yewtu.be, invidio.us, piped.video, each carrying the id |
| YouTube.FirstAlternativeIsYewTube | src/youtube_detector.js:83-119 | the first alternative is the link `convertToYewTube` gives |
| YouTube.GetYewTubeThumbnail | src/youtube_detector.js:107-109 | the thumbnail url gives the id back |
| YouTube.LiteralAtLower | src/youtube_detector.js:123-133 | a case-insensitive literal in the lower-cased text occurs case-insensitively in the original |
| YouTube.HostShowsIndicator | src/youtube_detector.js:125-126 | every host contains "youtube" or is "youtu.be" |
| YouTube.MatchShowsIndicator | src/youtube_detector.js:123-133 | any pattern match puts "youtube" or "youtu.be" in the text |
| YouTube.ExtractImpliesIndicators | src/youtube_detector.js:123-133 | every post with a detected link passes `containsYouTubeIndicators` |
| YouTube.HostAtLoneDot | src/youtube_detector.js:6-35 | in a text with a single dot, a host can only occur with its first dot on it |
| YouTube.NoHostAroundLoneDot | src/youtube_detector.js:6-35 | if the letters around that single dot are wrong for every host, no host occurs |
| YouTube.NoMatchAroundLoneDot | src/youtube_detector.js:6-35 | then no pattern matches anywhere |
| YouTube.MirrorUrlDot | src/youtube_detector.js:83 | a yewtu.be watch url has a single dot, at position 13 |
| YouTube.ConvertedNotDetected | src/youtube_detector.js:75-104 | `extractVideoId` finds nothing in a converted link |
| Util.JoinCons | src/bot.js:141-143 | a part put in front of a non-empty join is followed by one separator |
| Util.JoinSnoc | src/bot.js:141-143 | a part put after a non-empty join is preceded by one separator |
| Util.BlocksCons | src/bot.js:141-143 | a one-line paragraph followed by a blank line splits off whole |
| Util.BlocksOfJoin | src/bot.js:141-143 | joining one-line paragraphs with blank lines loses nothing: `Blocks` gives them back |
| Util.NatToString | src/bot.js:151 | a count renders as a non-empty run of decimal digits |
| Util.NatToStringRoundTrip | src/bot.js:151 | the digits read back as the count |
| State.Distinct | src/stateManager.js:80 | `new Set(posts)` has no repeats and holds exactly the ids of `posts` |
| State.Document | src/stateManager.js:129-137 | the document a save writes: version "1.0.0", the set in insertion order, and its size as `totalProcessed` (a definition; `SaveLoadRoundTrip` states its property) |
| State.Loaded | src/stateManager.js:63-91 | the set after a load: a missing file keeps it, a parsed list gives `new Set(list)`, and every error or an absent field gives the empty set (a definition; `LoadedNoDup` states its properties) |
| State.SaveDue | src/stateManager.js:120 | a fresh insertion saves when the new size is at most 10 or ends in 1 (a definition; `SavesWhileGrowingCount` and `BatchedBound` state its consequences) |
| State.DistinctOfNoDup | src/stateManager.js:80 | a list without repeats comes through `new Set` unchanged |
| State.LoadedNoDup | src/stateManager.js:63-91 | a load leaves no repeated id; a parsed list gives exactly its ids; any error gives the empty set |
| State.SaveLoadRoundTrip | src/stateManager.js:77-137 | what a save writes, a later load reads back, and `totalProcessed` is its size |
| State.BatchedAfterInsert | src/stateManager.js:116-122 | a fresh insertion keeps the batching invariant |
| State.BatchedBound | src/stateManager.js:119-122 | at most nine marked posts postdate the last save attempt |
| State.SavesWhileGrowingCount | src/stateManager.js:120 | `n` fresh insertions save `n` times up to ten, then `10 + (n - 1) / 10` times |
| State.MarkedAll | src/stateManager.js:109-118 | the set after marking a sequence of ids one after another (a definition; `MarkedAllContents`, `MarkedAllSnoc` and `MarkedAllFresh` state its properties) |
| State.SavesOnMark | src/stateManager.js:116-122 | marking an id triggers a save exactly when the id is fresh and `SaveDue` holds for the grown size (a definition) |
| State.SavesFor | src/stateManager.js:116-122 | the number of save attempts made while marking a sequence of ids (a definition; `SavesForSnoc` and `MarkedAllFresh` state its properties) |
| State.WrittenAfter | src/stateManager.js:116-137 | the last document a successful write stored while marking a sequence of ids (a definition; `WrittenAfterSnoc` states its step) |
| State.MarkedAllContents | src/stateManager.js:109-118 | marking keeps the old set as a prefix, holds exactly the old ids and the marked ones, and adds no repeat |
| State.MarkedAllSnoc | src/stateManager.js:109-118 | marking one more id appends it exactly when it is not yet in the set |
| State.SavesForSnoc | src/stateManager.js:116-122 | marking one more id adds one save attempt exactly when `SavesOnMark` holds |
| State.WrittenAfterSnoc | src/stateManager.js:116-137 | marking one more id changes the written document exactly when it saves and the write succeeds, and then to the grown set |
| State.MarkedAllFresh | src/stateManager.js:109-122 | marking distinct ids into an empty set gives them back in order, with `SavesWhileGrowing` save attempts |
| State.StateManager.constructor | src/stateManager.js:4-12 | the gist id is taken from the environment, and the set starts empty |
| State.StateManager.CreateNewGist | src/stateManager.js:32-61 | success stores the new id and writes an empty document; failure changes nothing and is passed on |
| State.StateManager.Initialize | src/stateManager.js:14-30 | fails exactly when no gist id is set and creating one fails, and then changes neither the gist id nor the set. Otherwise the gist id is the configured or the created one, and the set is what the load gives. The written document becomes the empty one exactly when a gist was created |
| State.StateManager.LoadProcessedPosts | src/stateManager.js:63-91 | the set becomes `Loaded(reply, old set)`: a missing file keeps it, errors empty it |
| State.StateManager.CleanupOldPosts | src/stateManager.js:93-103 | nothing changes |
| State.StateManager.HasProcessedPost | src/stateManager.js:105-107 | true exactly when the id is in the set |
| State.StateManager.MarkPostAsProcessed | src/stateManager.js:109-123 | the id ends up in the set. A repeat changes nothing. A fresh id is appended, and one save attempt is made exactly when `SavesOnMark` holds, that is, when the new size is at most 10 or ends in 1. A successful write stores the document of the grown set. The batching invariant holds |
| State.StateManager.SaveProcessedPosts | src/stateManager.js:125-154 | one save attempt; a successful write stores the document of the current set, and a failed one is swallowed |
| State.StateManager.GetStats | src/stateManager.js:156-161 | the set's size and the gist id |
| State.StateManager.Shutdown | src/stateManager.js:164-171 | one unconditional save attempt |
| Nostr.BuildEvent | src/nostrClient.js:77-89 | kind 1, the four fixed topic tags followed by the caller's tags, the content and the public key |
| Nostr.Gather | src/nostrClient.js:97-120 | `Promise.all` gives one result per relay, in relay order, with `ok` exactly for acknowledgements, `failed` exactly for refusals, `timeout` exactly when no reply came in time and `error` exactly for immediate throws; it rejects exactly when some attempt rejected |
| Nostr.Successful | src/nostrClient.js:123 | `results.filter(r => r.status === 'ok')` (a definition; `FiltersSelect` and `FiltersPartition` state its properties) |
| Nostr.FailedOnes | src/nostrClient.js:124 | `results.filter(r => r.status !== 'ok')` (a definition; `FiltersSelect` and `FiltersPartition` state its properties) |
| Nostr.Decide | src/nostrClient.js:120-147 | the answer once the note is signed: false when `Promise.all` rejects, otherwise whether some result is `ok` (a definition; `DecideIff` characterises it) |
| Nostr.FiltersPartition | src/nostrClient.js:123-124 | the successful and failed lists split the results (as multisets) |
| Nostr.FiltersSelect | src/nostrClient.js:123-124 | the successful list holds exactly the `ok` results and the failed list the others |
| Nostr.SuccessfulEmptyIff | src/nostrClient.js:123-136 | the successful list is non-empty exactly when some result is `ok` |
| Nostr.DecideIff | src/nostrClient.js:120-147 | a signed note counts as published exactly when no attempt rejected and at least one relay acknowledged |
| Nostr.NostrClient.constructor | src/nostrClient.js:10-22 | the five default relays, and no keys |
| Nostr.StoredPrivateKey | src/nostrClient.js:36-43 | the private key is stored as soon as NOSTR_NSEC is read, and kept whatever fails later (a definition; `NostrClient.Initialize` states the client holds it) |
| Nostr.StoredPublicKey | src/nostrClient.js:45-46 | the derived public key is stored before it is compared with NOSTR_NPUB (a definition; `NostrClient.Initialize` states the client holds it) |
| Nostr.NostrClient.Initialize | src/nostrClient.js:24-66 | succeeds exactly when the keys are accepted, and fails with a mismatch exactly when a readable NOSTR_NPUB names another key than the derived one. A missing or empty NOSTR_NSEC fails without touching the client. On every path the keys held afterwards are the ones stored before the failing step: the decoded private key once it is read, the derived public key once it is computed, the old keys otherwise |
| Nostr.NostrClient.PublishNote | src/nostrClient.js:68-148 | throws exactly when the client has no private key. Otherwise the answer is true exactly when signing succeeds and `Decide` holds. The note sent is `BuildEvent(content, tags, publicKey)` |
| Bot.GenerateComment | src/bot.js:135-144 | the header, the alternatives joined by blank lines and the footer, as the source builds them (a definition; `CommentLayout` and `CommentBlocks` state its properties) |
| Bot.NostrContent | src/bot.js:151-155 | the note's five paragraphs joined by blank lines, equal to the template literal (a definition; `NoteLayout`, `HeadlineCount` and `HeadlinePlural` state its properties) |
| Bot.CommentHeaderPlural | src/bot.js:141 | the header says "Alternatives" exactly when there are several links |
| Bot.ConvertedIsOneLine | src/bot.js:137 | a converted link with a valid id has no line break |
| Bot.CommentIsJoin | src/bot.js:141-143 | header, joined alternatives and footer make one blank-line join of all paragraphs |
| Bot.CommentPartsOneLine | src/bot.js:135-144 | no paragraph of the comment spans two lines |
| Bot.CommentLayout | src/bot.js:135-144 | the comment's paragraphs are the header, one alternative per link in order, and the footer |
| Bot.AlternativesPoint | src/bot.js:136-139 | alternative `k` offers the yewtu.be page of link `k`'s video |
| Bot.CommentBlocks | src/bot.js:135-144 | the comment has `n + 2` paragraphs, and paragraph `k + 1` points at link `k`'s video on yewtu.be |
| Bot.CommentForPost | src/bot.js:95-108 | the same holds for the links the detector finds in any post |
| Bot.ValidIdsInPost | src/bot.js:95 | every link found in a post has a valid id |
| Bot.StackerNewsUrlRoundTrip | src/bot.js:148 | the referral url gives the post id back |
| Bot.HeadlineCount | src/bot.js:149-151 | the headline gives the number of links right after "Found ", and that number reads back as the count |
| Bot.HeadlinePlural | src/bot.js:151 | the count is followed by " YouTube link", with an "s" exactly when there are several links |
| Bot.NoteLayout | src/bot.js:146-156 | the note's paragraphs are the headline, the quoted title, the teaser, the referral url and the hashtags, and the url gives the post id back |
| Bot.Outcome | src/bot.js:82-133 | a fresh post is detected exactly when it has links, commented exactly when the comment also went through, and announced exactly when the note was also delivered |
| Bot.Tally | src/bot.js:51-62 | the counters count every post, and for consistent results announced ≤ commented ≤ detected ≤ processed |
| Bot.Counted | src/bot.js:58-61 | one result adds one processed post and one to each counter whose flag it carries (a definition; `TallySnoc` ties it to `Tally`) |
| Bot.TallySnoc | src/bot.js:57-62 | the tally of one more result is the old tally counted with it |
| Bot.GistIdAtStart | src/bot.js:16-28 | the gist id after start-up: the created one when none was configured and start-up went through, otherwise the old one (a definition) |
| Bot.SetAtStart | src/bot.js:16-28 | the set after start-up: what the load gives when start-up went through, otherwise the old set (a definition) |
| Bot.WrittenAtStart | src/bot.js:16-28 | the written document after start-up: the empty one when the keys were accepted and a gist was created, otherwise the old one (a definition) |
| Bot.YewTuBot.constructor | src/bot.js:8-14 | a fresh state manager with the given gist id, an empty set, nothing written and no save attempt, and a fresh Nostr client with the default relays and no keys |
| Bot.YewTuBot.Initialize | src/bot.js:16-28 | succeeds exactly when the Nostr keys are accepted and the state starts up. On success the client holds the decoded private key and the public key derived from it, the gist id is the configured or created one, and the set is what the load gives. On failure the gist id and the set are unchanged. The written document becomes the empty one exactly when the keys were accepted and a gist was created. Rejected keys leave the state untouched. Whatever the outcome, the client holds the keys `NostrClient.Initialize` stored, so a failed gist creation leaves accepted keys in place |
| Bot.YewTuBot.PostToNostr | src/bot.js:146-162 | true exactly when the client has a key, signing succeeds and `Decide` holds. A note goes to the relays exactly when the client has a key and signing succeeds, and it is the one built from the post's text |
| Bot.YewTuBot.Respond | src/bot.js:97-121 | the result is `Outcome`. A comment is made exactly when there are links, and it is `generateComment` of them. A note is sent exactly when there are links, the comment was posted, the client has a key and signing succeeds, and it carries the post's note text |
| Bot.YewTuBot.ProcessPost | src/bot.js:82-133 | a seen post: nothing happens. A fresh post is appended to the set in every case, with the result `Outcome`, and saved as `markPostAsProcessed` decides. The gist id never changes. A comment is made exactly when links were found. A note is sent exactly when links were found, the comment was posted, the client has a key and signing succeeds |
| Bot.YewTuBot.Step | src/bot.js:57 | one turn of the loop gives a consistent result and changes the state as one `markPostAsProcessed` does: the gist id is kept, a fresh id is appended, a save attempt is made exactly when `SavesOnMark` holds, and a successful write stores the grown set |
| Bot.YewTuBot.Turn | src/bot.js:57-62 | one turn of the loop extends the counters by its result and the state from `MarkedAll`, `SavesFor` and `WrittenAfter` of the ids so far to those of one more id |
| Bot.YewTuBot.ProcessPosts | src/bot.js:51-62 | the loop over the posts: one consistent result per post, counters that are their tally, every post marked, the gist id kept, the set `MarkedAll` of the post ids, `SavesFor` more save attempts, and the written document `WrittenAfter` of the ids and the writes' answers |
| Bot.YewTuBot.Run | src/bot.js:30-80 | exit 1 exactly when start-up fails or neither fetch gives posts. The gist id is `GistIdAtStart` and the keys are the ones `NostrClient.Initialize` stored. On exit the set, save count and written document are as start-up left them. On completion the counters are the tally of the results, every fetched post is marked, announced ≤ commented ≤ detected ≤ processed, the set is `MarkedAll` of the fetched ids, the save attempts grow by `SavesFor` of them (no final save), and the written document is `WrittenAfter` of them |

## Left out

- The network, disk and clocks are left out. Gist requests, the Stacker News client
  (`src/stackerNewsClient.js`), relay connections and timers are replaced by what they gave
  back. The `created`, `lastUpdated`, `lastRun` and `created_at` timestamps are not modelled.
- The cryptography is represented by the results of library calls. These calls are
  `nip19.decode`, `getPublicKey` and `finalizeEvent`; the `npubEncode` used only for
  logging is dropped.
- Concurrency is left out. The relays' concurrent attempts arrive as one outcome per relay,
  in relay order. This is what `Promise.all` reports, whatever the timing. The ten-second
  timeout becomes the `NoReply` outcome.
- Logging (`src/logger.js`) is left out, together with every logger call.
- `NostrClient.close` is not modelled: the core never calls it.
- The statistics fields `totalDetected` and `totalCommented` of a freshly created gist
  document are not modelled. The model keeps `version`, `processedPosts` and
  `totalProcessed`.
- The top-level `bot.run().catch(...)` handler (src/bot.js:165-170) is not modelled. Its
  `process.exit(1)` and the `process.exit(1)` calls in `run` become the `Exit(1)` outcome.
- Post ids are strings. `postId.toString()` is taken to be the identity, and a null id
  (which throws) is not modelled.
- `src/bot.js:3` imports `./youtubeDetector.js`, but the detector's file is
  `src/youtube_detector.js`. The model takes the import to mean that file.
- YouTube.LowerStr: lower-cases ASCII letters only and keeps the length. JavaScript's
  `toLowerCase` also maps non-ASCII letters, and some of those mappings can create or move
  matches, which the model does not capture. For example, U+212A KELVIN SIGN becomes ASCII
  `k`, and U+0130 becomes `i` followed by U+0307, which makes the text longer. So the
  source finds the id `kkkkkkkkkkk` after `youtu.be/` followed by eleven KELVIN SIGNs, where
  the model finds nothing.
- Bot.YewTuBot.Step: states the whole state change of one turn, but of the result only
  that it is consistent; `ProcessPost` states which result it is. Keeping the loop's proof
  obligations small is what makes it verify.
- Bot.YewTuBot.Run: its contract does not say what each post's result is, only that every
  result is consistent and that the counters are their tally. The per-post outcome is
  stated by `ProcessPost`.
- Bot.YewTuBot.Run: takes the fallback fetch's answer as a parameter that may be `None`,
  and then exits with 1 as `run` does when the fallback throws (src/bot.js:38-47). The
  program never takes that path: `getRecentPostsSimple` catches every error and returns an
  empty list (src/stackerNewsClient.js:179-182), so a failed fallback ends as a completed
  run with no posts. The Stacker News client is not part of this model.
- The test cases of `src/test_file.js` other than the plain-text one are not restated as
  lemmas. Their link counts follow from the modelled patterns, but evaluating the scan on
  concrete strings is too costly for the verifier.

Behaviours of the code worth knowing, which the model keeps:

- The records come in pattern-list order, not in order of first occurrence in the text
  (src/youtube_detector.js:45-66). For a youtu.be link in the title and a youtube.com
  watch link in the body, the body's id comes first, because the youtube.com pattern is
  tried first (`ExtractOrdered`). The ids are lower-cased, because the scan reads the
  lower-cased content (src/youtube_detector.js:39).
- A malformed or unreadable gist document is not fatal. The load logs it and starts from
  an empty set (src/stateManager.js:86-90).
- `run` never calls `shutdown` (src/bot.js:30-80), so no final save happens. At most nine
  marked posts postdate the last save attempt (`BatchedBound`). A failed save is swallowed
  (src/stateManager.js:150-153), so the gist itself may miss any number of posts.
- The per-run counters are logged but never persisted (src/bot.js:64-68).
