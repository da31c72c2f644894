/** The Nostr side of the bot: key set-up, the text note it publishes, and how the
    per-relay outcomes of one publication are reduced to a yes or no. Key decoding,
    key derivation and signing are library calls the model receives as results; the
    relays' concurrent replies arrive as one given outcome per relay. */
module Nostr {
  import opened Util

  const DefaultRelays: seq<string> :=
    ["wss://relay.damus.io", "wss://nos.lol", "wss://relay.snort.social",
     "wss://nostr.wine", "wss://relay.nostr.band"]

  /** The kind of a text note (NIP-01). */
  const TextNote := 1

  /** The topic tags every note starts with. */
  const FixedTags: seq<seq<string>> :=
    [["t", "videostr"], ["t", "privacy"], ["t", "stackernews"], ["t", "yewtubot"]]

  /** An unsigned note (its creation time is left out). */
  datatype Event = Event(kind: nat, tags: seq<seq<string>>, content: string, pubkey: Option<string>)

  function BuildEvent(content: string, tags: seq<seq<string>>, pubkey: Option<string>): (e: Event)
    ensures e.kind == TextNote && e.content == content && e.pubkey == pubkey
    ensures |e.tags| == |FixedTags| + |tags|
    ensures e.tags[..|FixedTags|] == FixedTags && e.tags[|FixedTags|..] == tags
  {
    Event(TextNote, FixedTags + tags, content, pubkey)
  }

  /** How the attempt on one relay ended: `pool.publish` threw at once, the relay
      acknowledged, the relay refused, nothing came within the ten-second timeout, or the
      attempt's promise rejected. */
  datatype Attempt = Threw(message: string) | Acked | Refused(reason: string) | NoReply | Rejected

  datatype Status = Ok | Failed | Timeout | Error

  /** One entry of the results list: the relay, its status, and the reason or error text. */
  datatype RelayResult = RelayResult(relay: string, status: Status, detail: string)

  /** What `Promise.all` gives for the attempts: the results in relay order, or `None`
      when any attempt rejected. */
  function Gather(relays: seq<string>, attempts: seq<Attempt>): (r: Option<seq<RelayResult>>)
    requires |attempts| == |relays|
    ensures r.None? <==> exists i :: 0 <= i < |attempts| && attempts[i].Rejected?
    ensures r.Some? ==> |r.value| == |relays|
    ensures r.Some? ==> forall i :: 0 <= i < |relays| ==> r.value[i].relay == relays[i]
    ensures r.Some? ==> forall i :: 0 <= i < |relays| ==>
              (r.value[i].status == Ok <==> attempts[i].Acked?) &&
              (r.value[i].status == Failed <==> attempts[i].Refused?) &&
              (r.value[i].status == Timeout <==> attempts[i].NoReply?) &&
              (r.value[i].status == Error <==> attempts[i].Threw?)
  {
    if |relays| == 0 then Some([])
    else
      var rest := Gather(relays[1..], attempts[1..]);
      var head := match attempts[0]
        case Threw(message) => Some(RelayResult(relays[0], Error, message))
        case Acked => Some(RelayResult(relays[0], Ok, ""))
        case Refused(reason) => Some(RelayResult(relays[0], Failed, reason))
        case NoReply => Some(RelayResult(relays[0], Timeout, ""))
        case Rejected => None;
      if head.None? || rest.None? then
        assert attempts[0].Rejected? || exists i :: 1 <= i < |attempts| && attempts[i].Rejected? by {
          if rest.None? {
            var j :| 0 <= j < |attempts[1..]| && attempts[1..][j].Rejected?;
            assert attempts[j + 1].Rejected?;
          }
        }
        None
      else
        var r := [head.value] + rest.value;
        assert forall i :: 1 <= i < |r| ==> r[i] == rest.value[i - 1];
        Some(r)
  }

  function Successful(results: seq<RelayResult>): (r: seq<RelayResult>)
  {
    if |results| == 0 then []
    else (if results[0].status == Ok then [results[0]] else []) + Successful(results[1..])
  }

  function FailedOnes(results: seq<RelayResult>): (r: seq<RelayResult>)
  {
    if |results| == 0 then []
    else (if results[0].status != Ok then [results[0]] else []) + FailedOnes(results[1..])
  }

  /** The two filters split the results: every result lands in exactly one list. */
  lemma {:induction false} FiltersPartition(results: seq<RelayResult>)
    ensures multiset(Successful(results)) + multiset(FailedOnes(results)) == multiset(results)
  {
    if |results| > 0 {
      FiltersPartition(results[1..]);
      assert results == [results[0]] + results[1..];
    }
  }

  /** The successful list holds exactly the `ok` results, the failed list the others. */
  lemma {:induction false} FiltersSelect(results: seq<RelayResult>)
    ensures forall x :: x in Successful(results) <==> x in results && x.status == Ok
    ensures forall x :: x in FailedOnes(results) <==> x in results && x.status != Ok
  {
    if |results| > 0 {
      FiltersSelect(results[1..]);
      assert results == [results[0]] + results[1..];
    }
  }

  /** The successful list is empty only when no result is `ok`. */
  lemma SuccessfulEmptyIff(results: seq<RelayResult>)
    ensures |Successful(results)| > 0 <==> exists i :: 0 <= i < |results| && results[i].status == Ok
  {
    FiltersSelect(results);
    if |Successful(results)| > 0 {
      assert Successful(results)[0] in results;
    }
  }

  /** The answer of one publication once the note is signed: true when at least one
      relay acknowledged, false when none did or `Promise.all` rejected. */
  function Decide(relays: seq<string>, attempts: seq<Attempt>): bool
    requires |attempts| == |relays|
  {
    match Gather(relays, attempts)
    case None => false
    case Some(results) => |Successful(results)| > 0
  }

  /** One acknowledgement is enough, and a single rejected attempt spoils everything. */
  lemma DecideIff(relays: seq<string>, attempts: seq<Attempt>)
    requires |attempts| == |relays|
    ensures Decide(relays, attempts) <==>
              (forall i :: 0 <= i < |attempts| ==> !attempts[i].Rejected?) &&
              (exists i :: 0 <= i < |attempts| && attempts[i].Acked?)
  {
    var g := Gather(relays, attempts);
    if g.Some? {
      SuccessfulEmptyIff(g.value);
      if exists i :: 0 <= i < |attempts| && attempts[i].Acked? {
        var i :| 0 <= i < |attempts| && attempts[i].Acked?;
        assert g.value[i].status == Ok;
      }
    }
  }

  /** Why `initialize` threw: no NOSTR_NSEC, a key the libraries could not decode or
      derive from, or a derived public key that differs from NOSTR_NPUB. */
  datatype InitError = MissingNsec | BadKey | KeyMismatch

  datatype InitResult = Initialized | InitFailed(reason: InitError)

  /** What `publishNote` does: throws before initialisation, otherwise answers. */
  datatype PublishResult = NotInitialized | Published(ok: bool)

  predicate StartsWith(s: string, prefix: string)
  {
    |prefix| <= |s| && s[..|prefix|] == prefix
  }

  /** The private key read from NOSTR_NSEC: decoded when bech32 (`nsec1…`), taken as
      hex otherwise; `None` when decoding throws. */
  function PrivateKeyOf(nsec: string, decode: string -> Option<string>): Option<string>
  {
    if StartsWith(nsec, "nsec1") then decode(nsec) else Some(nsec)
  }

  /** The public key NOSTR_NPUB names, read the same way. */
  function ExpectedPublicKey(npub: string, decode: string -> Option<string>): Option<string>
  {
    if StartsWith(npub, "npub1") then decode(npub) else Some(npub)
  }

  /** When `initialize` returns normally: a private key is given and readable, a public
      key can be derived from it, and a given public key equals the derived one. */
  predicate KeysAccepted(nsec: Option<string>, npub: Option<string>,
                         decode: string -> Option<string>, derive: string -> Option<string>)
  {
    nsec.Some? && nsec.value != "" &&
    var key := PrivateKeyOf(nsec.value, decode);
    key.Some? && derive(key.value).Some? &&
    (npub.Some? && npub.value != "" ==> ExpectedPublicKey(npub.value, decode) == derive(key.value))
  }

  /** The private key held after `initialize`, given the one held before: it is stored
      as soon as NOSTR_NSEC is read, whatever happens next. */
  function StoredPrivateKey(nsec: Option<string>, decode: string -> Option<string>,
                            before: Option<string>): Option<string>
  {
    if nsec.None? || nsec.value == "" || PrivateKeyOf(nsec.value, decode).None? then before
    else PrivateKeyOf(nsec.value, decode)
  }

  /** The public key held after `initialize`: stored as soon as it is derived, before it
      is compared with NOSTR_NPUB. */
  function StoredPublicKey(nsec: Option<string>, decode: string -> Option<string>,
                           derive: string -> Option<string>, before: Option<string>): Option<string>
  {
    if nsec.None? || nsec.value == "" || PrivateKeyOf(nsec.value, decode).None? then before
    else if derive(PrivateKeyOf(nsec.value, decode).value).None? then before
    else derive(PrivateKeyOf(nsec.value, decode).value)
  }

  class NostrClient {
    var relays: seq<string>
    var privateKey: Option<string>
    var publicKey: Option<string>

    constructor()
      ensures relays == DefaultRelays && privateKey == None && publicKey == None
    {
      relays := DefaultRelays;
      privateKey := None;
      publicKey := None;
    }

    /** Reads the keys. `decode` stands for `nip19.decode` and `derive` for
        `getPublicKey`; `None` from either means the library threw. The private key is
        stored before the public key is derived and compared, so a later failure leaves
        it in place. */
    method Initialize(nsec: Option<string>, npub: Option<string>,
                      decode: string -> Option<string>, derive: string -> Option<string>)
      returns (r: InitResult)
      modifies this`privateKey, this`publicKey
      ensures r == Initialized <==> KeysAccepted(nsec, npub, decode, derive)
      ensures r == InitFailed(MissingNsec) <==> nsec.None? || nsec.value == ""
      ensures r == InitFailed(MissingNsec) ==> unchanged(this)
      ensures r == InitFailed(KeyMismatch) <==>
                nsec.Some? && nsec.value != "" && PrivateKeyOf(nsec.value, decode).Some? &&
                derive(PrivateKeyOf(nsec.value, decode).value).Some? &&
                npub.Some? && npub.value != "" && ExpectedPublicKey(npub.value, decode).Some? &&
                ExpectedPublicKey(npub.value, decode) != derive(PrivateKeyOf(nsec.value, decode).value)
      ensures privateKey == StoredPrivateKey(nsec, decode, old(privateKey))
      ensures publicKey == StoredPublicKey(nsec, decode, derive, old(publicKey))
      ensures r == Initialized ==>
                privateKey == PrivateKeyOf(nsec.value, decode) &&
                publicKey == derive(privateKey.value)
      ensures r == InitFailed(KeyMismatch) ==>
                privateKey == PrivateKeyOf(nsec.value, decode) &&
                npub.Some? && publicKey != ExpectedPublicKey(npub.value, decode)
    {
      if nsec.None? || nsec.value == "" {
        return InitFailed(MissingNsec);
      }
      var key := PrivateKeyOf(nsec.value, decode);
      if key.None? {
        return InitFailed(BadKey);
      }
      privateKey := key;
      var derived := derive(key.value);
      if derived.None? {
        return InitFailed(BadKey);
      }
      publicKey := derived;
      if npub.Some? && npub.value != "" {
        var expected := ExpectedPublicKey(npub.value, decode);
        if expected.None? {
          return InitFailed(BadKey);
        }
        if publicKey != expected {
          return InitFailed(KeyMismatch);
        }
      }
      r := Initialized;
    }

    /** Publishes a text note. `signOk` says whether signing succeeded and `attempts`
        holds each relay's outcome, in relay order. `sent` is the note handed to the
        relays, if any. */
    method PublishNote(content: string, tags: seq<seq<string>>, signOk: bool, attempts: seq<Attempt>)
      returns (r: PublishResult, sent: Option<Event>)
      requires |attempts| == |relays|
      ensures privateKey.None? <==> r == NotInitialized
      ensures r.Published? ==> (r.ok <==> signOk && Decide(relays, attempts))
      ensures sent.Some? <==> privateKey.Some? && signOk
      ensures sent.Some? ==> sent.value == BuildEvent(content, tags, publicKey)
    {
      if privateKey.None? {
        return NotInitialized, None;
      }
      var event := BuildEvent(content, tags, publicKey);
      if !signOk {
        return Published(false), None;
      }
      sent := Some(event);
      var gathered := Gather(relays, attempts);
      if gathered.None? {
        return Published(false), sent;
      }
      var results := gathered.value;
      var successful := Successful(results);
      r := Published(|successful| > 0);
    }
  }
}
