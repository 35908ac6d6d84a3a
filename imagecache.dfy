/**
  The base64 image cache: a JavaScript object from `url + width + height` to entries
  `{thumbnail, created, ttl}`. `depure` sweeps out the expired entries; `urltobase64`
  answers from the cache, or stores the outcome of a download.

  The clock, the download and the thumbnailer are inputs: `now` is the time in
  milliseconds and `Fetch` is what the download and the thumbnailer ended with. The
  URL check is an input too (`valid`). The order `Object.keys` lists the keys in is
  given as a sequence; it decides which entries are deleted before a sweep stops on
  an entry that is `null` or `undefined` (the TypeError the sweep catches).
 */
module ImageCache {
  import opened Optional
  import opened Strings
  import opened Numbers
  import opened Values

  const ThumbnailPrefix: string := "data:image/jpeg;base64,"

  /** The width and height `urltobase64` puts in place of NaN. */
  const DefaultWidth: real := 720.0
  const DefaultHeight: real := 1280.0

  /** `now - b`: the clock reading minus a number. */
  function Minus(now: real, b: JsNum): JsNum {
    match b
    case Finite(y) => Finite(now - y)
    case Infinite(neg) => Infinite(!neg)
    case NaN => NaN
  }

  // ---------------------------------------------------------------- depure

  /** Whether the sweep deletes `entry`: its `created` or `ttl` is falsy, or it was
      created before `now - limit`, where `limit` is the sweep's ttl argument when one
      is given and the entry's own ttl otherwise. */
  predicate Expired(entry: Value, now: real, limit: Option<Value>)
    requires Readable(entry)
  {
    var created := Get(entry, "created");
    var ttl := Get(entry, "ttl");
    !Truthy(created) || !Truthy(ttl)
    || Greater(Minus(now, ToNumberValue(if limit.Some? then limit.value else ttl)), ToNumberValue(created))
  }

  /** The `forEach` over the keys from position `i`; it stops at an unreadable entry. */
  function SweepFrom(entries: Props, keys: seq<string>, i: nat, now: real, limit: Option<Value>): Props
    requires i <= |keys|
    decreases |keys| - i
  {
    if i == |keys| then entries
    else
      var e := Field(entries, keys[i]);
      if !Readable(e) then entries
      else if Expired(e, now, limit) then SweepFrom(entries - {keys[i]}, keys, i + 1, now, limit)
      else SweepFrom(entries, keys, i + 1, now, limit)
  }

  /** `keys` lists the keys of `entries`, each once: what `Object.keys` returns. */
  predicate KeysOf(keys: seq<string>, entries: Props) {
    (forall i, j | 0 <= i < j < |keys| :: keys[i] != keys[j])
    && (forall i | 0 <= i < |keys| :: keys[i] in entries)
    && (forall k | k in entries :: k in keys)
  }

  /** The cache a sweep works on: a truthy `cache` argument replaces the current one. */
  function SweptCache(entries: Props, cache: Value): Props {
    if Truthy(cache) then ForIn(cache) else entries
  }

  /** `depure(ttl, cache)` at time `now`. */
  function DepureSpec(entries: Props, ttl: Value, cache: Value, now: real, keys: seq<string>): Props {
    SweepFrom(SweptCache(entries, cache), keys, 0, now, if Truthy(ttl) then Some(ttl) else None)
  }

  class Base64Cache {
    var entries: Props

    constructor (initial: Props)
      ensures entries == initial
    {
      entries := initial;
    }

    /** The eviction sweep; `keys` is what `Object.keys` lists for the cache swept. */
    method Depure(ttl: Value, cache: Value, now: real, keys: seq<string>)
      requires KeysOf(keys, SweptCache(entries, cache))
      modifies this
      ensures entries == DepureSpec(old(entries), ttl, cache, now, keys)
    {
      var limit := ttl;
      var replacement := cache;
      if Truthy(limit) && limit == Number(NaN) && TypeOf(limit) == "object" {
        replacement := limit;
        limit := Null;
      }
      assert limit == ttl && replacement == cache by {
        SwapIsDead(ttl);
      }
      if Truthy(replacement) {
        entries := ForIn(replacement);
      }
      var given := if Truthy(limit) then Some(limit) else None;
      Sweep(keys, now, given);
    }

    /** The `for (let key of Object.keys(cache))` loop of `depure`. */
    method Sweep(keys: seq<string>, now: real, given: Option<Value>)
      modifies this
      ensures entries == SweepFrom(old(entries), keys, 0, now, given)
    {
      ghost var start := entries;
      var i := 0;
      while i < |keys|
        invariant 0 <= i <= |keys|
        invariant SweepFrom(start, keys, 0, now, given) == SweepFrom(entries, keys, i, now, given)
        decreases |keys| - i
      {
        var key := keys[i];
        var entry := Field(entries, key);
        if !Readable(entry) {
          return;
        }
        if Expired(entry, now, given) {
          entries := entries - {key};
        }
        i := i + 1;
      }
    }

    /** `urltobase64(url, width, height, noerror)` on this cache. */
    method UrlToBase64(url: string, width: Value, height: Value, noerror: bool, valid: bool,
                       now: real, fetched: Fetch, s: Settings) returns (answer: Answer)
      modifies this
      ensures (answer, entries) == UrlToBase64Spec(old(entries), url, width, height, noerror, valid, now, fetched, s)
    {
      if !valid || url == "" {
        return NoUrl(noerror, s);
      }
      var key := CacheKey(url, width, height);
      var hit := Field(entries, key);
      if Truthy(hit) {
        answer := Resolved(Get(hit, "thumbnail"));
        Refresh(key, now);
      } else {
        answer := StoreOutcome(MissKey(url, width, height), noerror, now, fetched, s);
      }
    }

    /** A hit: the entry's `created` is set to now. */
    method Refresh(key: string, now: real)
      modifies this
      ensures entries == Refreshed(old(entries), key, now)
    {
      var hit := Field(entries, key);
      if hit.Obj? {
        entries := entries[key := Obj(hit.fields["created" := Num(now)])];
      }
    }

    /** A miss: the outcome of the download, stored under `key` unless an entry is there. */
    method StoreOutcome(key: string, noerror: bool, now: real, fetched: Fetch, s: Settings) returns (answer: Answer)
      modifies this
      ensures (answer, entries) == Outcome(old(entries), key, noerror, now, fetched, s)
    {
      match fetched
      case Thumbnail(data) =>
        answer := Resolved(Str(ThumbnailPrefix + data));
        if !Truthy(Field(entries, key)) {
          entries := entries[key := Stored(ThumbnailPrefix + data, now, s.ttl)];
        }
      case NoThumbnailer =>
        answer := Resolved(Str(s.filebase64));
      case ThumbnailFailed =>
        if noerror {
          if !Truthy(Field(entries, key)) {
            entries := entries[key := Stored(s.filebase64, now, s.ttlempty)];
          }
          answer := Resolved(Str(s.filebase64));
        } else {
          answer := Rejected(405, "can not convert image");
        }
      case DownloadFailed =>
        answer := Catch(key, noerror, now, s);
    }

    /** The outer `catch`: with `noerror` the placeholder is stored under `key` unless an
        entry is there, and answered; without it the promise rejects. */
    method Catch(key: string, noerror: bool, now: real, s: Settings) returns (answer: Answer)
      modifies this
      ensures (answer, entries) == Caught(old(entries), key, noerror, now, s)
    {
      if noerror {
        if !Truthy(Field(entries, key)) {
          entries := entries[key := Stored(s.filebase64, now, s.ttlempty)];
        }
        answer := Resolved(Str(s.filebase64));
      } else {
        answer := Rejected(405, "can not download image");
      }
    }
  }

  /** The ttl/cache swap at the head of `depure` needs a truthy NaN, and NaN is falsy. */
  lemma SwapIsDead(ttl: Value)
    ensures !(Truthy(ttl) && ttl == Number(NaN))
  {
  }

  /** The entries of `entries` left once the keys in `done` have been swept. */
  function Kept(entries: Props, done: set<string>, now: real, limit: Option<Value>): Props {
    map k | k in entries && !(k in done && Readable(entries[k]) && Expired(entries[k], now, limit)) :: entries[k]
  }

  function Done(keys: seq<string>, n: nat): set<string>
    requires n <= |keys|
  {
    set q | 0 <= q < n :: keys[q]
  }

  /** Where the sweep from `i` stops: the first unreadable entry, or the end. */
  function Stop(entries: Props, keys: seq<string>, i: nat): (r: nat)
    requires i <= |keys|
    ensures i <= r <= |keys|
    ensures forall q | i <= q < r :: Readable(Field(entries, keys[q]))
    ensures r < |keys| ==> !Readable(Field(entries, keys[r]))
    decreases |keys| - i
  {
    if i == |keys| || !Readable(Field(entries, keys[i])) then i else Stop(entries, keys, i + 1)
  }

  /** From `i` on, the sweep turns the entries kept so far into those kept up to where
      it stops. */
  lemma {:induction false} SweepKeeps(entries: Props, keys: seq<string>, i: nat, now: real, limit: Option<Value>)
    requires KeysOf(keys, entries) && i <= |keys|
    ensures SweepFrom(Kept(entries, Done(keys, i), now, limit), keys, i, now, limit)
         == Kept(entries, Done(keys, Stop(entries, keys, i)), now, limit)
    decreases |keys| - i
  {
    if i < |keys| {
      var k := keys[i];
      var m := Kept(entries, Done(keys, i), now, limit);
      assert k !in Done(keys, i) by {
        assert forall q | 0 <= q < i :: keys[q] != k;
      }
      assert Field(m, k) == Field(entries, k);
      if Readable(Field(entries, k)) {
        SweepStep(entries, keys, i, now, limit);
        SweepKeeps(entries, keys, i + 1, now, limit);
      }
    }
  }

  /** One turn of the sweep moves one key into the swept ones. */
  lemma SweepStep(entries: Props, keys: seq<string>, i: nat, now: real, limit: Option<Value>)
    requires KeysOf(keys, entries) && i < |keys| && Readable(Field(entries, keys[i]))
    ensures var m := Kept(entries, Done(keys, i), now, limit); var k := keys[i];
      (if Expired(entries[k], now, limit) then m - {k} else m) == Kept(entries, Done(keys, i + 1), now, limit)
  {
    var k := keys[i];
    var m := Kept(entries, Done(keys, i), now, limit);
    assert Done(keys, i + 1) == Done(keys, i) + {k};
    var m' := Kept(entries, Done(keys, i + 1), now, limit);
    var r := if Expired(entries[k], now, limit) then m - {k} else m;
    forall j | j in r
      ensures j in m' && r[j] == m'[j]
    {
    }
    forall j | j in m'
      ensures j in r
    {
    }
  }

  /** The sweep deletes exactly the expired entries and leaves the others as they
      were, when no entry is `null` or `undefined`. */
  lemma DepureDeletesExpired(entries: Props, keys: seq<string>, now: real, limit: Option<Value>)
    requires KeysOf(keys, entries)
    requires forall k | k in entries :: Readable(entries[k])
    ensures SweepFrom(entries, keys, 0, now, limit)
         == map k | k in entries && !Expired(entries[k], now, limit) :: entries[k]
  {
    assert Kept(entries, Done(keys, 0), now, limit) == entries;
    SweepKeeps(entries, keys, 0, now, limit);
    assert Done(keys, |keys|) == entries.Keys;
  }

  /** When the entry under `keys[p]` is `null` or `undefined` (and none before it),
      the sweep stops there: the entries from `keys[p]` on are all kept. */
  lemma DepureStops(entries: Props, keys: seq<string>, p: nat, now: real, limit: Option<Value>)
    requires KeysOf(keys, entries) && p < |keys|
    requires forall q | 0 <= q < p :: Readable(entries[keys[q]])
    requires !Readable(entries[keys[p]])
    ensures forall q | p <= q < |keys| ::
      keys[q] in SweepFrom(entries, keys, 0, now, limit)
      && SweepFrom(entries, keys, 0, now, limit)[keys[q]] == entries[keys[q]]
  {
    assert Kept(entries, Done(keys, 0), now, limit) == entries;
    assert Stop(entries, keys, 0) == p by {
      StopAt(entries, keys, 0, p);
    }
    SweepKeeps(entries, keys, 0, now, limit);
    forall q | p <= q < |keys|
      ensures keys[q] !in Done(keys, p)
    {
    }
  }

  lemma {:induction false} StopAt(entries: Props, keys: seq<string>, i: nat, p: nat)
    requires i <= p < |keys|
    requires forall q | i <= q < p :: Readable(Field(entries, keys[q]))
    requires !Readable(Field(entries, keys[p]))
    ensures Stop(entries, keys, i) == p
    decreases p - i
  {
    if i < p {
      StopAt(entries, keys, i + 1, p);
    }
  }

  // ---------------------------------------------------------------- urltobase64

  /** How the download and the thumbnailer ended: a thumbnail, a failing thumbnailer,
      a failing download (or no `fetch`), or a `fetch` without a thumbnailer. */
  datatype Fetch = Thumbnail(data: string) | ThumbnailFailed | DownloadFailed | NoThumbnailer

  /** What the promise settles to; the serialised error is not modelled. */
  datatype Answer = Resolved(data: Value) | Rejected(code: nat, text: string)

  /** The conversion's `ttl`, `ttlempty` and placeholder image. */
  datatype Settings = Settings(ttl: Value, ttlempty: Value, filebase64: string)

  function CacheKey(url: string, width: Value, height: Value): string {
    url + JsString(width) + JsString(height)
  }

  function Stored(thumbnail: string, now: real, ttl: Value): Value {
    Obj(map["thumbnail" := Str(thumbnail), "created" := Num(now), "ttl" := ttl])
  }

  /** An entry is written only when none (none truthy) is there. */
  function Remember(entries: Props, key: string, entry: Value): Props {
    if Truthy(Field(entries, key)) then entries else entries[key := entry]
  }

  function Sized(v: Value, default: real): Value {
    if v == Number(NaN) then Num(default) else v
  }

  /** The key a miss stores under: NaN sizes replaced by the defaults. */
  function MissKey(url: string, width: Value, height: Value): string {
    CacheKey(url, Sized(width, DefaultWidth), Sized(height, DefaultHeight))
  }

  /** A hit on an object refreshes its `created`. */
  function Refreshed(entries: Props, key: string, now: real): Props {
    var hit := Field(entries, key);
    if hit.Obj? then entries[key := Obj(hit.fields["created" := Num(now)])] else entries
  }

  /** What a miss answers, and the cache after it. */
  function Outcome(entries: Props, key: string, noerror: bool, now: real, fetched: Fetch, s: Settings): (Answer, Props) {
    match fetched
    case Thumbnail(data) =>
      (Resolved(Str(ThumbnailPrefix + data)), Remember(entries, key, Stored(ThumbnailPrefix + data, now, s.ttl)))
    case NoThumbnailer => (Resolved(Str(s.filebase64)), entries)
    case ThumbnailFailed =>
      if noerror then (Resolved(Str(s.filebase64)), Remember(entries, key, Stored(s.filebase64, now, s.ttlempty)))
      else (Rejected(405, "can not convert image"), entries)
    case DownloadFailed => Caught(entries, key, noerror, now, s)
  }

  /** What the outer `catch` answers, and the cache after it. */
  function Caught(entries: Props, key: string, noerror: bool, now: real, s: Settings): (Answer, Props) {
    if noerror then (Resolved(Str(s.filebase64)), Remember(entries, key, Stored(s.filebase64, now, s.ttlempty)))
    else (Rejected(405, "can not download image"), entries)
  }

  /** A throw before the lookup: with `noerror` the placeholder is answered and stored
      under `key` exactly when nothing truthy is there, and nothing else changes. */
  lemma CaughtStores(entries: Props, key: string, now: real, s: Settings)
    ensures var (answer, after) := Caught(entries, key, true, now, s);
      answer == Resolved(Str(s.filebase64))
      && (forall k | k != key :: Field(after, k) == Field(entries, k))
      && (Truthy(Field(entries, key)) ==> after == entries)
      && (!Truthy(Field(entries, key)) ==> after == entries[key := Stored(s.filebase64, now, s.ttlempty)])
    ensures Caught(entries, key, false, now, s) == (Rejected(405, "can not download image"), entries)
  {
  }

  /** The answer for a URL that is not valid. */
  function NoUrl(noerror: bool, s: Settings): Answer {
    if noerror then Resolved(Str(s.filebase64)) else Rejected(403, "there is no valid url")
  }

  function UrlToBase64Spec(entries: Props, url: string, width: Value, height: Value, noerror: bool,
                           valid: bool, now: real, fetched: Fetch, s: Settings): (Answer, Props)
  {
    if !valid || url == "" then (NoUrl(noerror, s), entries)
    else
      var hit := Field(entries, CacheKey(url, width, height));
      if Truthy(hit) then (Resolved(Get(hit, "thumbnail")), Refreshed(entries, CacheKey(url, width, height), now))
      else Outcome(entries, MissKey(url, width, height), noerror, now, fetched, s)
  }

  /** A hit answers with the cached thumbnail and refreshes only the entry's `created`. */
  lemma HitRefreshes(entries: Props, url: string, width: Value, height: Value, noerror: bool, valid: bool,
                     now: real, fetched: Fetch, s: Settings)
    requires valid && url != "" && CacheKey(url, width, height) in entries
    requires entries[CacheKey(url, width, height)].Obj?
    ensures var key := CacheKey(url, width, height); var e := entries[key].fields;
      var (answer, after) := UrlToBase64Spec(entries, url, width, height, noerror, valid, now, fetched, s);
      answer == Resolved(Field(e, "thumbnail"))
      && after.Keys == entries.Keys
      && (forall k | k in entries && k != key :: after[k] == entries[k])
      && after[key].Obj? && after[key].fields.Keys == e.Keys + {"created"}
      && Field(after[key].fields, "created") == Num(now)
      && forall f | f in e && f != "created" :: after[key].fields[f] == e[f]
  {
  }

  /** A miss stores at most one entry, under the key with the sizes defaulted, and
      never overwrites a truthy entry; the answer does not depend on the cache. */
  lemma MissStoresOnce(entries: Props, url: string, width: Value, height: Value, noerror: bool, valid: bool,
                       now: real, fetched: Fetch, s: Settings)
    requires !Truthy(Field(entries, CacheKey(url, width, height)))
    ensures var key := MissKey(url, width, height);
      var (answer, after) := UrlToBase64Spec(entries, url, width, height, noerror, valid, now, fetched, s);
      (forall k | k != key :: Field(after, k) == Field(entries, k))
      && (Truthy(Field(entries, key)) ==> after == entries)
      && (!valid || url == "" ==> after == entries)
      && (valid && url != "" && after != entries ==>
            after == entries[key := Stored(if fetched.Thumbnail? then ThumbnailPrefix + fetched.data else s.filebase64,
                                           now, if fetched.Thumbnail? then s.ttl else s.ttlempty)])
      && answer == UrlToBase64Spec(map[], url, width, height, noerror, valid, now, fetched, s).0
  {
  }

  /** With `noerror` the promise never rejects; without it, only a failure rejects. */
  lemma NoErrorResolves(entries: Props, url: string, width: Value, height: Value, valid: bool,
                        now: real, fetched: Fetch, s: Settings)
    ensures UrlToBase64Spec(entries, url, width, height, true, valid, now, fetched, s).0.Resolved?
    ensures UrlToBase64Spec(entries, url, width, height, false, valid, now, fetched, s).0.Rejected? ==>
      (!valid || url == "" || fetched.ThumbnailFailed? || fetched.DownloadFailed?)
  {
  }

  lemma {:induction false} NaNKeyDiffers(url: string, a: string, b: string, c: string, d: string, x: real)
    requires a == "NaN" && |NumberString(Finite(x))| > 0 && IsDigit(NumberString(Finite(x))[0])
    ensures url + a + b != url + NumberString(Finite(x)) + c
    ensures url + d + a + b != url + d + NumberString(Finite(x)) + c
  {
    assert (url + a + b)[|url|] == 'N';
    assert (url + NumberString(Finite(x)) + c)[|url|] == NumberString(Finite(x))[0];
    assert (url + d + a + b)[|url| + |d|] == 'N';
    assert (url + d + NumberString(Finite(x)) + c)[|url| + |d|] == NumberString(Finite(x))[0];
  }

  /** With a NaN width or height, the key a miss stores under is not the key looked up. */
  lemma MissKeyDiffers(url: string, width: Value, height: Value)
    requires width == Number(NaN) || height == Number(NaN)
    ensures MissKey(url, width, height) != CacheKey(url, width, height)
  {
    WholeNumberString(720);
    WholeNumberString(1280);
    if width == Number(NaN) {
      NaNKeyDiffers(url, JsString(width), JsString(height), JsString(Sized(height, DefaultHeight)), "", DefaultWidth);
    } else {
      NaNKeyDiffers(url, JsString(height), "", "", JsString(width), DefaultHeight);
    }
  }

  /** A whole number is written as its digits. */
  lemma WholeNumberString(n: nat)
    ensures NumberString(Finite(n as real)) == NatString(n)
    ensures |NatString(n)| > 0 && IsDigit(NatString(n)[0])
  {
    NatStringValue(n);
  }

  /** The quirk: when the width or height is NaN, the entry is stored under the key with
      720 or 1280 in its place, never under the key looked up, so the same call misses
      again and downloads again. */
  lemma NaNSizeNeverHits(entries: Props, url: string, width: Value, height: Value, noerror: bool,
                         valid: bool, now: real, fetched: Fetch, s: Settings)
    requires width == Number(NaN) || height == Number(NaN)
    requires !Truthy(Field(entries, CacheKey(url, width, height)))
    ensures var after := UrlToBase64Spec(entries, url, width, height, noerror, valid, now, fetched, s).1;
      !Truthy(Field(after, CacheKey(url, width, height)))
  {
    MissKeyDiffers(url, width, height);
  }
}
