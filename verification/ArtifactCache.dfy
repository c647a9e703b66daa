/**
 The cache of downloaded runtime artifacts, whose entries are named by the digest of their contents.

 The hash is any function, and a download brings any bytes at all.
 */
module ArtifactCache {
  type Bytes = seq<bv8>
  type Digest = string
  type Hash = Bytes -> Digest
  type Entries = map<Digest, Bytes>

  datatype Download = Failed | Downloaded(bytes: Bytes)

  datatype Request = Request(expected: Digest, offline: bool, download: Download)

  datatype Outcome = Ready | Mismatch | OfflineMiss | DownloadFailed | WrongBytes

  function OutcomeOf(hash: Hash, entries: Entries, r: Request): Outcome {
    if r.expected in entries then if hash(entries[r.expected]) == r.expected then Ready else Mismatch
    else if r.offline then OfflineMiss
    else if r.download.Failed? then DownloadFailed
    else if hash(r.download.bytes) == r.expected then Ready
    else WrongBytes
  }

  function EntriesAfter(hash: Hash, entries: Entries, r: Request): Entries {
    if r.expected !in entries && OutcomeOf(hash, entries, r).Ready? && r.download.Downloaded?
    then entries[r.expected := r.download.bytes] else entries
  }

  /** The cache directory: entries, and downloads that are not finished. */
  class Cache {
    const hash: Hash
    var entries: Entries
    var unfinished: Entries

    constructor (hash: Hash, entries: Entries)
      ensures this.hash == hash && this.entries == entries && unfinished == map[]
    {
      this.hash := hash;
      this.entries := entries;
      unfinished := map[];
    }

    /** `acquire`. A download goes to a file of its own and is renamed into place only if it has the digest. */
    method Acquire(r: Request) returns (outcome: Outcome)
      modifies this
      ensures outcome == OutcomeOf(hash, old(entries), r)
      ensures entries == EntriesAfter(hash, old(entries), r)
      ensures unfinished == old(unfinished) || unfinished == old(unfinished) - {r.expected}
      ensures r.expected !in old(unfinished) ==> r.expected !in unfinished
    {
      if r.expected in entries {
        if hash(entries[r.expected]) == r.expected { return Ready; }
        return Mismatch;
      }
      if r.offline { return OfflineMiss; }
      match r.download {
        case Failed =>
          unfinished := unfinished - {r.expected};
          return DownloadFailed;
        case Downloaded(bytes) =>
          unfinished := unfinished[r.expected := bytes];
          var actual := hash(unfinished[r.expected]);
          if actual != r.expected {
            unfinished := unfinished - {r.expected};
            return WrongBytes;
          }
          entries := entries[r.expected := unfinished[r.expected]];
          unfinished := unfinished - {r.expected};
          return Ready;
      }
    }
  }

  // ---- Every sequence of acquisitions -----------------------------------

  function RunAll(hash: Hash, entries: Entries, requests: seq<Request>): Entries
    decreases |requests|
  {
    if requests == [] then entries else RunAll(hash, EntriesAfter(hash, entries, requests[0]), requests[1..])
  }

  /** Nothing that was there is touched, and everything that was not has the digest it is named by. */
  ghost predicate Extends(hash: Hash, later: Entries, entries: Entries) {
    && (forall d | d in entries :: d in later && later[d] == entries[d])
    && (forall d | d in later && d !in entries :: hash(later[d]) == d)
  }

  /** Over any requests, online or not, with any downloads, the cache only gains entries that match their digest. */
  lemma {:induction false} CacheOnlyGainsMatches(hash: Hash, entries: Entries, requests: seq<Request>)
    ensures Extends(hash, RunAll(hash, entries, requests), entries)
    decreases |requests|
  {
    if requests != [] {
      CacheOnlyGainsMatches(hash, EntriesAfter(hash, entries, requests[0]), requests[1..]);
    }
  }

  /** An artifact that was once ready stays ready: it can be had offline, whatever happens in between. */
  lemma {:induction false} ReadyForGood(hash: Hash, entries: Entries, r: Request, between: seq<Request>, again: Request)
    requires OutcomeOf(hash, entries, r).Ready? && again.expected == r.expected
    ensures var later := RunAll(hash, EntriesAfter(hash, entries, r), between);
            && r.expected in later && hash(later[r.expected]) == r.expected
            && OutcomeOf(hash, later, again).Ready? && EntriesAfter(hash, later, again) == later
  {
    CacheOnlyGainsMatches(hash, EntriesAfter(hash, entries, r), between);
  }

  /** An entry that does not match is neither replaced nor used, ever. */
  lemma {:induction false} MismatchForGood(hash: Hash, entries: Entries, d: Digest, between: seq<Request>, r: Request)
    requires d in entries && hash(entries[d]) != d && r.expected == d
    ensures var later := RunAll(hash, entries, between);
            && d in later && later[d] == entries[d]
            && OutcomeOf(hash, later, r) == Mismatch && EntriesAfter(hash, later, r) == later
  {
    CacheOnlyGainsMatches(hash, entries, between);
  }

  /** The artifact is in the cache, and is what its name says. */
  predicate Matches(hash: Hash, entries: Entries, d: Digest) {
    d in entries && hash(entries[d]) == d
  }

  /** The request downloads the artifact and gets what it asked for. */
  predicate Brings(hash: Hash, r: Request, d: Digest) {
    r.expected == d && !r.offline && r.download.Downloaded? && hash(r.download.bytes) == d
  }

  /**
   After any requests an artifact can be had offline exactly when it was there and matched before, or nothing was there
   under its name and one of the requests brought it.
   */
  lemma {:induction false} OfflineExactlyWhen(hash: Hash, entries: Entries, requests: seq<Request>, d: Digest)
    ensures OutcomeOf(hash, RunAll(hash, entries, requests), Request(d, true, Failed)).Ready?
            <==> || Matches(hash, entries, d)
                 || (d !in entries && exists i :: 0 <= i < |requests| && Brings(hash, requests[i], d))
    decreases |requests|
  {
    if requests != [] {
      var r, rest := requests[0], requests[1..];
      var next := EntriesAfter(hash, entries, r);
      ReadyExactlyWhen(hash, entries, r);
      OfflineExactlyWhen(hash, next, rest, d);
      assert forall i | 0 < i < |requests| :: requests[i] == rest[i - 1];
      if d !in entries && exists i :: 0 <= i < |requests| && Brings(hash, requests[i], d) {
        var i :| 0 <= i < |requests| && Brings(hash, requests[i], d);
        if i > 0 { assert Brings(hash, rest[i - 1], d); }
      }
      if exists i :: 0 <= i < |rest| && Brings(hash, rest[i], d) {
        var i :| 0 <= i < |rest| && Brings(hash, rest[i], d);
        assert Brings(hash, requests[i + 1], d);
      }
    }
  }

  /**
   What a failure says. Bytes that were wrong once are refused again and never kept; a failed download, or none for being
   offline, leaves it open: the same request succeeds as soon as it brings the artifact.
   */
  lemma FailureSays(hash: Hash, entries: Entries, r: Request, brought: Bytes)
    requires !OutcomeOf(hash, entries, r).Ready? && r.expected !in entries
    ensures OutcomeOf(hash, entries, r).OfflineMiss? <==> r.offline
    ensures OutcomeOf(hash, entries, r).WrongBytes? <==> !r.offline && r.download.Downloaded?
    ensures OutcomeOf(hash, entries, r).DownloadFailed? <==> !r.offline && r.download.Failed?
    ensures EntriesAfter(hash, entries, r) == entries
    ensures hash(brought) == r.expected ==>
              var again := Request(r.expected, false, Downloaded(brought));
              OutcomeOf(hash, entries, again).Ready? && EntriesAfter(hash, entries, again) == entries[r.expected := brought]
  {
  }

  /** A request succeeds exactly when, afterwards, the entry is there and matches. */
  lemma ReadyExactlyWhen(hash: Hash, entries: Entries, r: Request)
    ensures var after := EntriesAfter(hash, entries, r);
            OutcomeOf(hash, entries, r).Ready? <==> r.expected in after && hash(after[r.expected]) == r.expected
  {
  }
}
