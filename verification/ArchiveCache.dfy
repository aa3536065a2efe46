/** Pulling a chart archive through the content-addressed cache (charts/repo.go). Nothing is assumed of
    what the cache holds: files may be stale, cut short or edited. */
module ArchiveCache {
  import opened Text

  const HEX_LENGTH := 64
  const CACHE_TTL := 30 * 24 * 3600
  const MAX_RETRIES := 2

  datatype IndexEntry = IndexEntry(name: string, version: string, digest: string)

  datatype Verdict = Verified | NoDigest | Rejected

  /* One attempt to fetch: the body, a failure another attempt could get past, or the repository's final
     answer. */
  datatype Fetch = Body(body: string) | Transient | Refused

  datatype File = File(body: string, modified: int)

  predicate IsHex(c: char) { '0' <= c <= '9' || 'a' <= c <= 'f' || 'A' <= c <= 'F' }

  function LowerChar(c: char): char {
    if 'A' <= c <= 'Z' then (c as int + 32) as char else c
  }

  function Lower(s: string): string { seq(|s|, i requires 0 <= i < |s| => LowerChar(s[i])) }

  /* Lowercase hex of the length a sha256 has. */
  ghost predicate IsSum(s: string) { |s| == 64 && forall i :: 0 <= i < |s| ==> s[i] in "0123456789abcdef" }

  /* A hash: every body has a sum. */
  ghost predicate IsHash(sum: string -> string) { forall body :: IsSum(sum(body)) }

  /* The algorithm a digest names, if it names one, and the rest. */
  function CutAlgorithm(digest: string): (Option<string>, string) {
    match Colon(digest)
    case None => (None, digest)
    case Some(i) => (Some(digest[..i]), digest[i + 1..])
  }

  function Colon(s: string): (r: Option<nat>)
    ensures r.Some? ==> r.value < |s|
  {
    if s == [] then None
    else if s[0] == ':' then Some(0)
    else match Colon(s[1..])
      case None => None
      case Some(i) => Some(i + 1)
  }

  function VerifyDigest(entry: IndexEntry, body: string, sum: string -> string): Verdict {
    if entry.digest == "" then NoDigest
    else
      var (alg, want) := CutAlgorithm(entry.digest);
      if alg.Some? && alg.value != "sha256" then Rejected
      else if Lower(want) == sum(body) then Verified
      else Rejected
  }

  function CacheKey(entry: IndexEntry): string {
    var (alg, want) := CutAlgorithm(entry.digest);
    if alg.Some? && alg.value != "sha256" then ""
    else if |want| != HEX_LENGTH || !(forall i :: 0 <= i < |want| ==> IsHex(want[i])) then ""
    else Lower(want)
  }

  /* What a checkable digest looks like: 64 hex digits, in either case. */
  ghost predicate HexDigits(s: string) { |s| == 64 && forall i :: 0 <= i < |s| ==> s[i] in "0123456789abcdefABCDEF" }

  /* An entry publishes those digits, bare or after the name of the algorithm. */
  ghost predicate Publishes(entry: IndexEntry, digits: string) {
    HexDigits(digits) && (entry.digest == digits || entry.digest == "sha256:" + digits)
  }

  /* The same digit in lower case. */
  ghost predicate LowerDigit(c: char, low: char) {
    exists k :: 0 <= k < 16 && low == "0123456789abcdef"[k] && c in {low, "0123456789ABCDEF"[k]}
  }

  lemma DigitLowers(c: char)
    requires c in "0123456789abcdefABCDEF"
    ensures LowerDigit(c, LowerChar(c)) && IsHex(c)
  {
    var k := if c <= '9' then c as int - '0' as int
             else if c <= 'F' then c as int - 'A' as int + 10 else c as int - 'a' as int + 10;
    assert LowerChar(c) == "0123456789abcdef"[k] && c in {LowerChar(c), "0123456789ABCDEF"[k]};
  }

  lemma HexIsDigit(c: char)
    ensures IsHex(c) <==> c in "0123456789abcdefABCDEF"
  {
  }

  lemma {:induction false} ColonIsFirst(s: string)
    ensures match Colon(s)
            case None => ':' !in s
            case Some(i) => i < |s| && s[i] == ':' && ':' !in s[..i]
  {
    if s != [] && s[0] != ':' {
      ColonIsFirst(s[1..]);
      assert s == [s[0]] + s[1..];
      if Colon(s).Some? {
        var i := Colon(s).value;
        assert s[..i] == [s[0]] + s[1..][..i - 1];
      }
    }
  }

  lemma CutNothing(s: string)
    requires HexDigits(s)
    ensures CutAlgorithm(s) == (None, s) && CutAlgorithm("sha256:" + s) == (Some("sha256"), s)
  {
    var long := "sha256:" + s;
    ColonIsFirst(s);
    ColonIsFirst(long);
    assert long[6] == ':' && long[..6] == "sha256" && long[7..] == s;
    assert forall i :: 0 <= i < |s| ==> s[i] in s && s[i] != ':';
    assert forall i :: 0 <= i < 6 ==> long[i] == "sha256"[i] && long[i] != ':';
    assert forall i :: 6 < i <= |long| ==> long[..i][6] == ':';
  }

  /* The key of the digits an entry publishes: the same in lower case. */
  lemma KeyOfDigits(entry: IndexEntry, digits: string)
    requires Publishes(entry, digits)
    ensures |CacheKey(entry)| == 64 && forall i :: 0 <= i < 64 ==> LowerDigit(digits[i], CacheKey(entry)[i])
  {
    CutNothing(digits);
    forall i | 0 <= i < |digits| ensures IsHex(digits[i]) && LowerDigit(digits[i], LowerChar(digits[i])) {
      DigitLowers(digits[i]);
    }
  }

  /* And an entry has a key exactly when it publishes such digits. */
  lemma KeyIffPublished(entry: IndexEntry)
    ensures CacheKey(entry) != "" <==> exists digits: string :: Publishes(entry, digits)
  {
    hide CacheKey;
    if digits: string :| Publishes(entry, digits) { KeyOfDigits(entry, digits); }
    if CacheKey(entry) != "" { KeyedPublishes(entry); }
  }

  lemma KeyedPublishes(entry: IndexEntry)
    requires CacheKey(entry) != ""
    ensures Publishes(entry, CutAlgorithm(entry.digest).1)
  {
    hide IsHex, Lower;
    var (alg, want) := CutAlgorithm(entry.digest);
    ColonIsFirst(entry.digest);
    forall i | 0 <= i < |want| ensures want[i] in "0123456789abcdefABCDEF" { HexIsDigit(want[i]); }
    if alg.Some? { Rejoined(entry.digest, want); }
  }

  lemma Rejoined(digest: string, want: string)
    requires CutAlgorithm(digest) == (Some("sha256"), want) && Colon(digest).Some?
    requires digest[Colon(digest).value] == ':'
    ensures digest == "sha256:" + want
  {
    var i := Colon(digest).value;
    assert digest == digest[..i] + [':'] + digest[i + 1..];
    assert "sha256" + [':'] == "sha256:";
  }

  /* A body verifies exactly when its own sum is the key it would be cached under; an entry without a key
     verifies nothing. */
  lemma VerifiedIffKey(entry: IndexEntry, body: string, sum: string -> string)
    requires IsHash(sum)
    ensures VerifyDigest(entry, body, sum) == Verified <==> CacheKey(entry) != "" && CacheKey(entry) == sum(body)
    ensures VerifyDigest(entry, body, sum) == NoDigest <==> entry.digest == ""
    ensures entry.digest == "" ==> CacheKey(entry) == ""
  {
    var (alg, want) := CutAlgorithm(entry.digest);
    assert IsSum(sum(body));
    if Lower(want) == sum(body) {
      forall i | 0 <= i < |want| ensures IsHex(want[i]) {
        assert LowerChar(want[i]) == sum(body)[i];
      }
    }
    if entry.digest == "" { assert Colon(entry.digest) == None; }
  }

  class RepoStore {
    const sum: string -> string
    var cache: map<string, File>
    var clock: int
    ghost var fetches: seq<Fetch>
    ghost var mishaps: nat

    constructor (sum: string -> string)
      ensures this.sum == sum && cache == map[] && fetches == [] && mishaps == 0
    {
      this.sum, cache, clock, fetches, mishaps := sum, map[], 0, [], 0;
    }

    /* Whether the file system fails a call. */
    method Fails() returns (fails: bool)
      modifies `mishaps
      ensures mishaps == old(mishaps) + if fails then 1 else 0
    {
      fails := *;
      if fails {
        mishaps := mishaps + 1;
      }
    }

    /* A hit is a file whose bytes verify against the entry just resolved; it is kept from ageing out. */
    method CachedArchive(key: string, entry: IndexEntry) returns (r: Option<string>)
      modifies `cache, `mishaps
      ensures mishaps >= old(mishaps)
      ensures r.Some? ==> key != "" && IsHit(old(cache), key, entry, sum) && r.value == old(cache)[key].body
      ensures cache == if r.Some? then old(cache)[key := File(r.value, clock)] else old(cache)
      ensures r.None? && mishaps == old(mishaps) ==> key == "" || !IsHit(old(cache), key, entry, sum)
    {
      if key == "" || key !in cache {
        return None;
      }
      var unreadable := Fails();
      if unreadable || VerifyDigest(entry, cache[key].body, sum) != Verified {
        return None;
      }
      r := Some(cache[key].body);
      cache := cache[key := File(r.value, clock)];
    }

    method FetchArchive() returns (f: Fetch)
      modifies `fetches
      ensures fetches == old(fetches) + [f]
    {
      f := *;
      fetches := fetches + [f];
    }

    /* Retries only a failure that says nothing about the chart, and only so often. */
    method DownloadArchive() returns (r: Option<string>)
      modifies `fetches
      ensures old(fetches) <= fetches && |old(fetches)| < |fetches| <= |old(fetches)| + 3
      ensures r == match fetches[|fetches| - 1] case Body(body) => Some(body) case _ => None
      ensures forall i :: |old(fetches)| <= i < |fetches| - 1 ==> fetches[i] == Transient
      ensures r.None? ==> fetches[|fetches| - 1] == Refused || |fetches| == |old(fetches)| + 3
    {
      var attempt := 0;
      while true
        invariant attempt <= MAX_RETRIES && old(fetches) <= fetches && |fetches| == |old(fetches)| + attempt
        invariant forall i :: |old(fetches)| <= i < |fetches| ==> fetches[i] == Transient
        decreases MAX_RETRIES - attempt
      {
        var f := FetchArchive();
        match f {
          case Body(body) => return Some(body);
          case Refused => return None;
          case Transient =>
            if attempt == MAX_RETRIES {
              return None;
            }
        }
        attempt := attempt + 1;
      }
    }

    /* Stores a verified archive under its content address, then drops what nothing has read for long. */
    method CacheArchive(key: string, body: string)
      modifies `cache, `mishaps
      ensures mishaps >= old(mishaps)
      ensures key == "" ==> cache == old(cache)
      ensures key in cache && key != "" ==>
        cache[key] == File(body, clock) || (key in old(cache) && cache[key] == old(cache)[key])
      ensures forall k :: k in cache && k != key ==> k in old(cache) && cache[k] == old(cache)[k]
      ensures forall k :: k in old(cache) && old(cache)[k].modified >= clock - 2_592_000 ==> k in cache
      ensures key != "" && mishaps == old(mishaps) ==>
        && key in cache && cache[key] == File(body, clock)
        && forall k :: k in cache ==> cache[k].modified >= clock - 2_592_000
    {
      if key == "" {
        return;
      }
      var fails := Fails();
      if fails {
        return;
      }
      cache := cache[key := File(body, clock)];
      SweepChartCache();
    }

    /* Deletes archives not read for the time to live, and no others. */
    method SweepChartCache()
      modifies `cache, `mishaps
      ensures mishaps >= old(mishaps)
      ensures forall k :: k in cache ==> k in old(cache) && cache[k] == old(cache)[k]
      ensures forall k :: k in old(cache) && k !in cache ==> old(cache)[k].modified < clock - 2_592_000
      ensures mishaps == old(mishaps) ==> forall k :: k in cache ==> cache[k].modified >= clock - 2_592_000
    {
      var cutoff, left := clock - CACHE_TTL, cache.Keys;
      while left != {}
        invariant mishaps >= old(mishaps)
        invariant forall k :: k in left ==> k in cache
        invariant forall k :: k in cache ==> k in old(cache) && cache[k] == old(cache)[k]
        invariant forall k :: k in old(cache) && k !in cache ==> old(cache)[k].modified < cutoff
        invariant mishaps == old(mishaps) ==> forall k :: k in cache && k !in left ==> cache[k].modified >= cutoff
        decreases |left|
      {
        var k :| k in left;
        left := left - {k};
        if cache[k].modified < cutoff {
          var fails := Fails();
          if !fails {
            cache := cache - {k};
          }
        }
      }
    }

    /* The bytes of an archive, from the cache or the network. A hit is not fetched again, and what was fetched
       under a key is a hit from then on. */
    method Pull(entry: IndexEntry) returns (r: Option<string>)
      modifies `cache, `fetches, `mishaps
      ensures mishaps >= old(mishaps) && old(fetches) <= fetches
      ensures AsIfDownloaded(entry, r, sum, fetches[|old(fetches)|..], old(cache))
      ensures mishaps == old(mishaps) && CacheKey(entry) != "" && IsHit(old(cache), CacheKey(entry), entry, sum) ==>
        fetches == old(fetches)
      ensures mishaps == old(mishaps) && r.Some? && CacheKey(entry) != "" ==>
        CacheKey(entry) in cache && cache[CacheKey(entry)].body == r.value
    {
      var key := CacheKey(entry);
      r := CachedArchive(key, entry);
      if r.Some? {
        return;
      }
      r := DownloadArchive();
      if r.None? {
        return;
      }
      if VerifyDigest(entry, r.value, sum) == Rejected {
        return None;
      }
      CacheArchive(key, r.value);
    }
  }

  /* A cached file whose bytes verify against an entry. */
  ghost predicate IsHit(cache: map<string, File>, key: string, entry: IndexEntry, sum: string -> string) {
    key in cache && VerifyDigest(entry, cache[key].body, sum) == Verified
  }

  /* So, while nothing fails and nobody touches the cache, an archive with a checkable digest is downloaded
     once. */
  lemma PulledOnce(
    entry: IndexEntry, r: Option<string>, sum: string -> string, fetched: seq<Fetch>, before: map<string, File>,
    after: map<string, File>)
    requires IsHash(sum) && AsIfDownloaded(entry, r, sum, fetched, before) && r.Some? && CacheKey(entry) != ""
    requires CacheKey(entry) in after && after[CacheKey(entry)].body == r.value
    ensures IsHit(after, CacheKey(entry), entry, sum)
  {
    VerifiedIffKey(entry, r.value, sum);
    NothingUnverified(entry, r, sum, fetched, before);
  }

  /* What a download without any cache answers, given what it fetched. */
  function PlainPull(entry: IndexEntry, fetched: seq<Fetch>, sum: string -> string): Option<string>
    requires fetched != []
  {
    match fetched[|fetched| - 1]
    case Body(body) => if VerifyDigest(entry, body, sum) == Rejected then None else Some(body)
    case _ => None
  }

  /* A pull answers what a plain download of the same fetches would, or, without fetching anything, a
     cached body that the same check accepts. */
  ghost predicate AsIfDownloaded(
    entry: IndexEntry, r: Option<string>, sum: string -> string, fetched: seq<Fetch>, cache: map<string, File>)
  {
    if fetched != [] then r == PlainPull(entry, fetched, sum)
    else
      && r.Some? && VerifyDigest(entry, r.value, sum) == Verified
      && CacheKey(entry) in cache && cache[CacheKey(entry)].body == r.value
  }

  ghost predicate CollisionFree(sum: string -> string) {
    forall a, b {:trigger sum(a), sum(b)} :: sum(a) == sum(b) ==> a == b
  }

  /* The cache is transparent: whatever it held, when a pull answers with a body at all, a plain download
     that gets the archive the index means answers with the same one. */
  lemma CacheIsTransparent(
    entry: IndexEntry, r: Option<string>, sum: string -> string, fetched: seq<Fetch>, cache: map<string, File>,
    plain: seq<Fetch>)
    requires IsHash(sum) && CollisionFree(sum) && AsIfDownloaded(entry, r, sum, fetched, cache)
    requires CacheKey(entry) != "" && r.Some?
    requires plain != [] && PlainPull(entry, plain, sum).Some?
    ensures r == PlainPull(entry, plain, sum)
  {
    var other := PlainPull(entry, plain, sum);
    VerifiedIffKey(entry, r.value, sum);
    VerifiedIffKey(entry, other.value, sum);
  }

  /* Bytes are used unverified only when the index publishes no digest, and then they were downloaded. */
  lemma NothingUnverified(
    entry: IndexEntry, r: Option<string>, sum: string -> string, fetched: seq<Fetch>, cache: map<string, File>)
    requires IsHash(sum) && AsIfDownloaded(entry, r, sum, fetched, cache) && r.Some?
    ensures sum(r.value) == CacheKey(entry)
      || (entry.digest == "" && fetched != [] && fetched[|fetched| - 1] == Body(r.value))
  {
    VerifiedIffKey(entry, r.value, sum);
  }
}
