/** Request authentication of the HTTP API: the signature check over three
    five-minute windows (`validateSignature`) and the API-mode decision
    table of `getAK`. */
module ApiAuth {
  import opened Wrappers
  import opened ApiQuery

  const HttpBadRequest: int := 400
  const HttpForbidden: int := 403

  /** An `HTTPAPIError`: the message and the HTTP status it is served with. */
  datatype ApiError = ApiError(message: string, status: int)

  /** `hmac.new(key, message, hashlib.sha1).hexdigest()`, left uninterpreted. */
  type Hmac = (string, string) -> string

  /** The seconds of one signature window. */
  const WindowSeconds: int := 300

  const SignatureInvalid: ApiError := ApiError("Signature invalid (check system clock)", HttpForbidden)

  /** The window a timestamp falls in: Python 2 integer division, which
      floors; with a positive divisor Dafny's division is the same. */
  function Window(timestamp: int): int {
    timestamp / 300
  }

  /** The digest a client must send for the window `w`. */
  function Digest(hmac: Hmac, key: string, path: string, qdata: seq<Pair>, w: int): string {
    hmac(key, NormalizedQuery(path, qdata, Some(w), DefaultRemove))
  }

  /** The digests accepted at `timestamp`: those of the previous, the
      current and the next window, in that order. */
  function Candidates(hmac: Hmac, key: string, path: string, qdata: seq<Pair>, timestamp: int): seq<string> {
    var w := Window(timestamp);
    [Digest(hmac, key, path, qdata, w - 1), Digest(hmac, key, path, qdata, w), Digest(hmac, key, path, qdata, w + 1)]
  }

  /** The outcome of `validateSignature`: `None` when it returns, the error it raises otherwise. */
  function SignatureCheck(hmac: Hmac, key: string, signature: string, path: string,
                          qdata: seq<Pair>, timestamp: int): Option<ApiError> {
    if signature in Candidates(hmac, key, path, qdata, timestamp) then None else Some(SignatureInvalid)
  }

  /** `validateSignature(key, signature, path, query, timestamp)`; the clock
      `time.time()` read for a missing timestamp is the parameter `now`. */
  method ValidateSignature(hmac: Hmac, key: string, signature: string, path: string,
                           qdata: seq<Pair>, timestamp: Option<int>, now: int)
    returns (r: Option<ApiError>)
    ensures r == SignatureCheck(hmac, key, signature, path, qdata, if timestamp.Some? then timestamp.value else now)
  {
    var t := if timestamp.Some? then timestamp.value else now;
    var ts := Window(t);
    var candidates := CollectWindows((w: int) => Digest(hmac, key, path, qdata, w), ts);
    assert candidates == Candidates(hmac, key, path, qdata, t);
    if signature !in candidates {
      return Some(SignatureInvalid);
    }
    return None;
  }

  /** The loop of `validateSignature`: the digest of each window from `ts - 1`
      to `ts + 1`, appended in turn. */
  method CollectWindows(digest: int -> string, ts: int) returns (candidates: seq<string>)
    ensures candidates == [digest(ts - 1), digest(ts), digest(ts + 1)]
  {
    candidates := [];
    for i := -1 to 2
      invariant candidates == Collected(digest, ts - 1, i + 1)
    {
      candidates := candidates + [digest(ts + i)];
      assert ts + i == ts - 1 + (i + 1);
    }
    Around(digest, ts);
  }

  /** The values of `d` at `n` consecutive points from `from`. */
  function Collected(d: int -> string, from: int, n: nat): (r: seq<string>)
    ensures |r| == n
  {
    if n == 0 then [] else Collected(d, from, n - 1) + [d(from + n - 1)]
  }

  /** Three values collected from `w - 1` are those at `w - 1`, `w` and `w + 1`. */
  lemma Around(d: int -> string, w: int)
    ensures Collected(d, w - 1, 3) == [d(w - 1), d(w), d(w + 1)]
  {
    assert Collected(d, w - 1, 1) == [d(w - 1)];
    assert Collected(d, w - 1, 2) == [d(w - 1), d(w)];
  }

  /** A signature is accepted exactly when it is the digest of the request for
      one of the three windows around the timestamp; a rejection is the
      forbidden error asking to check the clock. */
  lemma SignatureCheckMeaning(hmac: Hmac, key: string, signature: string, path: string,
                              qdata: seq<Pair>, timestamp: int)
    ensures SignatureCheck(hmac, key, signature, path, qdata, timestamp).None? <==>
      exists w :: timestamp / 300 - 1 <= w <= timestamp / 300 + 1 && signature == Digest(hmac, key, path, qdata, w)
    ensures SignatureCheck(hmac, key, signature, path, qdata, timestamp).Some? ==>
      SignatureCheck(hmac, key, signature, path, qdata, timestamp).value
        == ApiError("Signature invalid (check system clock)", 403)
  {
    var w := Window(timestamp);
    var d := (v: int) => Digest(hmac, key, path, qdata, v);
    assert Candidates(hmac, key, path, qdata, timestamp) == [d(w - 1), d(w), d(w + 1)];
    InAround(d, w, signature);
    if signature in [d(w - 1), d(w), d(w + 1)] {
      var v :| w - 1 <= v <= w + 1 && signature == d(v);
      assert signature == Digest(hmac, key, path, qdata, v);
    } else {
      forall v | w - 1 <= v <= w + 1
        ensures signature != Digest(hmac, key, path, qdata, v)
      {
        assert Digest(hmac, key, path, qdata, v) == d(v);
      }
    }
  }

  /** Membership among the three values around `w`. */
  lemma InAround(d: int -> string, w: int, x: string)
    ensures x in [d(w - 1), d(w), d(w + 1)] <==> exists v :: w - 1 <= v <= w + 1 && x == d(v)
  {
    if exists v :: w - 1 <= v <= w + 1 && x == d(v) {
      var v :| w - 1 <= v <= w + 1 && x == d(v);
      assert v == w - 1 || v == w || v == w + 1;
    }
  }

  /** The digest made at `made` is accepted at every `checked` whose window is
      at most one away from that of `made`: client and server clocks may
      disagree by up to a window. */
  lemma ClockSkew(hmac: Hmac, key: string, path: string, qdata: seq<Pair>, made: int, checked: int)
    ensures var s := Digest(hmac, key, path, qdata, Window(made));
      -1 <= Window(checked) - Window(made) <= 1 ==> SignatureCheck(hmac, key, s, path, qdata, checked).None?
  {
    var w, v := Window(made), Window(checked);
    var c := Candidates(hmac, key, path, qdata, checked);
    if w == v - 1 {
      assert c[0] == Digest(hmac, key, path, qdata, w);
    } else if w == v {
      assert c[1] == Digest(hmac, key, path, qdata, w);
    } else if w == v + 1 {
      assert c[2] == Digest(hmac, key, path, qdata, w);
    }
  }

  // ---------------------------------------------------------------------
  // getAK

  /** The `API_MODE_*` settings. */
  datatype ApiMode = ModeKey | ModeOnlyKey | ModeSigned | ModeOnlyKeySigned | ModeAllSigned

  /** A registered API key: its id, its signing secret and whether it is blocked. */
  datatype ApiKey = ApiKey(id: string, signKey: string, blocked: bool)

  /** What an authenticated request may see: the key, if any, and whether it
      is restricted to public data. */
  datatype Access = Access(key: Option<ApiKey>, onlyPublic: bool)

  /** `getAK(apiKey, signature, path, query)`: the server's mode, the key
      store and the clock are parameters, and an empty string stands for a
      missing key or signature. */
  function GetAK(mode: ApiMode, keys: map<string, ApiKey>, hmac: Hmac, now: int,
                 apiKey: string, signature: string, path: string, qdata: seq<Pair>): Result<Access, ApiError> {
    if apiKey == "" then
      if mode in {ModeOnlyKey, ModeOnlyKeySigned, ModeAllSigned} then Err(ApiError("API key is missing", HttpForbidden))
      else Ok(Access(None, true))
    else if apiKey !in keys then Err(ApiError("Invalid API key", HttpForbidden))
    else if keys[apiKey].blocked then Err(ApiError("API key is blocked", HttpForbidden))
    else if signature != "" then
      match SignatureCheck(hmac, keys[apiKey].signKey, signature, path, qdata, now)
      case Some(e) => Err(e)
      case None => Ok(Access(Some(keys[apiKey]), false))
    else if mode in {ModeSigned, ModeAllSigned} then Err(ApiError("Signature missing", HttpForbidden))
    else Ok(Access(Some(keys[apiKey]), mode == ModeOnlyKeySigned))
  }

  /** Whether the request carries a good signature under the key's secret. */
  predicate SignedBy(hmac: Hmac, now: int, ak: ApiKey, signature: string, path: string, qdata: seq<Pair>) {
    signature != "" && SignatureCheck(hmac, ak.signKey, signature, path, qdata, now).None?
  }

  /** The errors of `getAK`, each forbidden: a missing key where the mode
      needs one, an unknown or blocked key, a bad signature, and a missing
      signature where the mode needs one. */
  lemma GetAKErrors(mode: ApiMode, keys: map<string, ApiKey>, hmac: Hmac, now: int,
                    apiKey: string, signature: string, path: string, qdata: seq<Pair>)
    ensures var r := GetAK(mode, keys, hmac, now, apiKey, signature, path, qdata);
      && (r.Err? ==> r.error.status == 403)
      && (apiKey == "" ==> (r.Err? <==> mode in {ModeOnlyKey, ModeOnlyKeySigned, ModeAllSigned}))
      && (apiKey == "" && r.Err? ==> r.error.message == "API key is missing")
      && (apiKey != "" && apiKey !in keys ==> r == Err(ApiError("Invalid API key", 403)))
      && (apiKey in keys && apiKey != "" && keys[apiKey].blocked ==> r == Err(ApiError("API key is blocked", 403)))
      && (apiKey in keys && apiKey != "" && !keys[apiKey].blocked && signature != "" ==>
            (r.Err? <==> !SignedBy(hmac, now, keys[apiKey], signature, path, qdata)))
      && (apiKey in keys && apiKey != "" && !keys[apiKey].blocked && signature == "" ==>
            (r.Err? <==> mode in {ModeSigned, ModeAllSigned}))
      && (apiKey in keys && apiKey != "" && !keys[apiKey].blocked && signature == "" && r.Err? ==>
            r.error.message == "Signature missing")
  {
  }

  /** What `getAK` grants: an anonymous request sees only public data; a
      keyed one carries a known, unblocked key; it is restricted to public
      data exactly when it is unsigned in the only-key-signed mode; and in
      the signed modes every keyed request was signed. */
  lemma GetAKGrants(mode: ApiMode, keys: map<string, ApiKey>, hmac: Hmac, now: int,
                    apiKey: string, signature: string, path: string, qdata: seq<Pair>)
    requires GetAK(mode, keys, hmac, now, apiKey, signature, path, qdata).Ok?
    ensures var a := GetAK(mode, keys, hmac, now, apiKey, signature, path, qdata).value;
      && (a.key.None? <==> apiKey == "")
      && (a.key.None? ==> a.onlyPublic && mode in {ModeKey, ModeSigned})
      && (a.key.Some? ==> apiKey in keys && a.key.value == keys[apiKey] && !a.key.value.blocked)
      && (a.key.Some? ==> (a.onlyPublic <==> signature == "" && mode == ModeOnlyKeySigned))
      && (a.key.Some? && signature != "" ==> SignedBy(hmac, now, a.key.value, signature, path, qdata))
      && (a.key.Some? && mode in {ModeSigned, ModeAllSigned} ==> SignedBy(hmac, now, a.key.value, signature, path, qdata))
      && (mode == ModeAllSigned ==> a.key.Some? && !a.onlyPublic)
  {
  }
}
