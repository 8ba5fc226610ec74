/**
 * frontend/src/core/auth/auth.ts: the one-key token store and `decodeJwt`,
 * which takes the payload segment of a compact JWT (section 3 of RFC 7519),
 * re-pads it and maps the base64url alphabet onto the base64 one (section 5
 * of RFC 4648) before handing it to `atob` and `JSON.parse`.
 */
module Auth {
  import opened Wrappers
  import Text

  const TokenKey: string := "token"

  /** The claims the route guards read from a decoded payload; "" stands for a falsy value. */
  datatype Claims = Claims(role: string, userType: string, isStaff: bool, isSuperuser: bool)

  /**
   * `localStorage`, holding strings by key. `saveToken`, `getToken` and
   * `removeToken` use only the "token" key.
   */
  class TokenStore {
    var storage: map<string, string>

    constructor (initial: map<string, string>)
      ensures storage == initial
    {
      storage := initial;
    }

    method SaveToken(t: string)
      modifies this
      ensures storage == old(storage)[TokenKey := t]
    {
      storage := storage[TokenKey := t];
    }

    /** `getToken`: the stored token, or null. */
    method GetToken() returns (r: Option<string>)
      ensures r == if TokenKey in storage then Some(storage[TokenKey]) else None
    {
      if TokenKey in storage {
        r := Some(storage[TokenKey]);
      } else {
        r := None;
      }
    }

    method RemoveToken()
      modifies this
      ensures storage == old(storage) - {TokenKey}
    {
      storage := storage - {TokenKey};
    }
  }

  /** Saving then reading gives the saved token; removing then reading gives null; other keys stay. */
  method TokenStoreRoundTrip(store: TokenStore, t: string) returns (afterSave: Option<string>, afterRemove: Option<string>)
    modifies store
    ensures afterSave == Some(t) && afterRemove == None
    ensures forall k :: k != TokenKey ==> (k in store.storage <==> k in old(store.storage))
    ensures forall k :: k != TokenKey && k in store.storage ==> store.storage[k] == old(store.storage)[k]
  {
    store.SaveToken(t);
    afterSave := store.GetToken();
    store.RemoveToken();
    afterRemove := store.GetToken();
  }

  // ---------------------------------------------------------------------------
  // decodeJwt

  /**
   * The padding step: a length that is a multiple of 4 is left alone,
   * otherwise 4 - (length mod 4) '=' characters are appended.
   */
  function Pad(p: string): (r: string)
    ensures |r| % 4 == 0
    ensures |p| % 4 == 0 ==> r == p
    ensures |p| <= |r| < |p| + 4 && r[..|p|] == p
    ensures forall i :: |p| <= i < |r| ==> r[i] == '='
  {
    if |p| % 4 == 0 then p else p + seq(4 - |p| % 4, _ => '=')
  }

  lemma PadIdempotent(p: string)
    ensures Pad(Pad(p)) == Pad(p)
  {
  }

  function UrlCharToStd(c: char): char {
    if c == '-' then '+' else if c == '_' then '/' else c
  }

  function StdCharToUrl(c: char): char {
    if c == '+' then '-' else if c == '/' then '_' else c
  }

  /** `.replace(/-/g, "+").replace(/_/g, "/")`: the base64url alphabet mapped onto base64. */
  function UrlToStd(s: string): (r: string)
    ensures |r| == |s|
    ensures forall i :: 0 <= i < |s| ==> r[i] == UrlCharToStd(s[i])
    ensures '-' !in r && '_' !in r
  {
    seq(|s|, i requires 0 <= i < |s| => UrlCharToStd(s[i]))
  }

  /** The opposite mapping, base64 onto base64url. */
  function StdToUrl(s: string): (r: string)
    ensures |r| == |s|
    ensures forall i :: 0 <= i < |s| ==> r[i] == StdCharToUrl(s[i])
  {
    seq(|s|, i requires 0 <= i < |s| => StdCharToUrl(s[i]))
  }

  /** A base64url string (no '+' or '/') survives the translation and its inverse. */
  lemma UrlToStdRoundTrip(s: string)
    requires '+' !in s && '/' !in s
    ensures StdToUrl(UrlToStd(s)) == s
  {
    assert forall i :: 0 <= i < |s| ==> StdToUrl(UrlToStd(s))[i] == s[i];
  }

  /** `parts[1]` of `token.split(".")`, or None when there are fewer than two parts. */
  function PayloadSegment(token: string): (r: Option<string>)
    ensures r.None? <==> '.' !in token
    ensures r.Some? ==> '.' !in r.value
  {
    var parts := Text.Split(token, '.');
    Text.SplitCount(token, '.');
    Text.OccurrencesZero(token, '.');
    if |parts| < 2 then None else Some(parts[1])
  }

  /**
   * `decodeJwt`: null for a null or empty token and for a token without a
   * second segment; otherwise the parse of the decoded payload segment.
   * `parse` stands for `atob` followed by `JSON.parse`, with None for a throw
   * (which the try block turns into null).
   */
  function DecodeJwt(token: Option<string>, parse: string -> Option<Claims>): (r: Option<Claims>)
    ensures token.None? || token.value == [] ==> r.None?
    ensures token.Some? && '.' !in token.value ==> r.None?
    ensures token.Some? && token.value != [] && PayloadSegment(token.value).Some? ==>
      r == parse(UrlToStd(Pad(PayloadSegment(token.value).value)))
  {
    if token.None? || token.value == [] then None
    else
      match PayloadSegment(token.value)
      case None => None
      case Some(payload) => parse(UrlToStd(Pad(payload)))
  }

  /**
   * Only the payload segment is read: the header and the signature are
   * neither decoded nor checked, so tokens that differ only there decode alike.
   */
  lemma OnlyPayloadMatters(header: string, header': string, payload: string, signature: string, signature': string,
                           parse: string -> Option<Claims>)
    requires '.' !in header && '.' !in header' && '.' !in payload
    ensures DecodeJwt(Some(header + "." + payload + "." + signature), parse)
         == DecodeJwt(Some(header' + "." + payload + "." + signature'), parse)
         == parse(UrlToStd(Pad(payload)))
  {
    SegmentOf(header, payload, signature);
    SegmentOf(header', payload, signature');
  }

  lemma SegmentOf(header: string, payload: string, signature: string)
    requires '.' !in header && '.' !in payload
    ensures PayloadSegment(header + "." + payload + "." + signature) == Some(payload)
  {
    var token := header + "." + payload + "." + signature;
    assert token == header + ['.'] + (payload + "." + signature);
    Text.SplitAfter(header, payload + "." + signature, '.');
    assert payload + "." + signature == payload + ['.'] + signature;
    Text.SplitAfter(payload, signature, '.');
  }
}
