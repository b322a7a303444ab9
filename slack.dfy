/**
 * The Slack web API client of stanwood/external_services/slack/slack.py.
 *
 * A `Slack` object holds two credentials. `Request` writes one of them into
 * the caller's message under 'token', rebuilds the message with every
 * `unicode` text folded to ASCII, posts it to the API and classifies the
 * answer: a parsed body, or one of the client's errors.
 *
 * The values are those of Python 2, where `unicode` and byte `str` are two
 * types. The foreign parts are parameters: `nfkd` is
 * `unicodedata.normalize('NFKD', .)`, `fetch` is the HTTP POST and `loads`
 * is `json.loads`.
 */
module SlackApi {
  import opened Wrappers

  // ------------------------------------------------------------------
  // Python 2 values
  // ------------------------------------------------------------------

  /** A dictionary key: a `unicode` key or a byte-string (`str`) key. */
  datatype Key = TextKey(name: string) | BytesKey(name: string)

  /** The Python 2 values a message holds. */
  datatype Value =
    | Unicode(text: string)
    | Str(bytes: string)
    | Int(n: int)
    | Bool(b: bool)
    | Null
    | List(items: seq<Value>)
    | Dict(entries: map<Key, Value>)

  /** A parsed JSON document, as `json.loads` returns it. */
  datatype Json =
    | JNull
    | JBool(b: bool)
    | JNumber(n: int)
    | JString(s: string)
    | JArray(elems: seq<Json>)
    | JObject(members: map<string, Json>)

  /** What a `SlackError` carries: the raw response body or the `error` member of the parsed body. */
  datatype ErrorArg = RawBody(body: string) | ErrorMember(error: Json)

  /** The exceptions the client raises or lets escape. */
  datatype Exception =
    | SlackError(arg: ErrorArg)
    | SlackLimitRateError(body: string)
    | UnicodeEncodeError
    | ValueError
    | TypeError
    | KeyError(key: string)

  /** `SlackLimitRateError` is a subclass of `SlackError`: an `except SlackError` catches both. */
  predicate IsSlackError(e: Exception) {
    e.SlackError? || e.SlackLimitRateError?
  }

  /** Python's truth value of a message value: false exactly for None, False, 0 and the empty containers. */
  function Truthy(v: Value): (r: bool)
    ensures !r <==> v in {Null, Bool(false), Int(0), Unicode([]), Str([]), List([]), Dict(map[])}
  {
    match v
    case Unicode(text) => text != []
    case Str(bytes) => bytes != []
    case Int(n) => n != 0
    case Bool(b) => b
    case Null => false
    case List(items) => items != []
    case Dict(entries) => entries != map[]
  }

  // ------------------------------------------------------------------
  // ASCII
  // ------------------------------------------------------------------

  predicate IsAscii(c: char) {
    c as int < 128
  }

  predicate AllAscii(s: string) {
    forall i :: 0 <= i < |s| ==> IsAscii(s[i])
  }

  /** `s.encode('ascii', 'ignore')`: every character outside ASCII is dropped, none raises. */
  function EncodeAsciiIgnore(s: string): (r: string)
    ensures AllAscii(r)
    ensures |r| <= |s|
  {
    if s == [] then []
    else (if IsAscii(s[0]) then [s[0]] else []) + EncodeAsciiIgnore(s[1..])
  }

  /** Dropping is all that happens: each ASCII character occurs as often as before, no other occurs. */
  lemma {:induction false} EncodeAsciiIgnoreKeepsAscii(s: string)
    ensures forall c :: IsAscii(c) ==> multiset(EncodeAsciiIgnore(s))[c] == multiset(s)[c]
    ensures forall c :: !IsAscii(c) ==> c !in EncodeAsciiIgnore(s)
  {
    if s != [] {
      EncodeAsciiIgnoreKeepsAscii(s[1..]);
      assert s == [s[0]] + s[1..];
    }
  }

  /** The characters kept stay in their order: the encoding distributes over concatenation. */
  lemma {:induction false} EncodeAsciiIgnoreConcat(a: string, b: string)
    ensures EncodeAsciiIgnore(a + b) == EncodeAsciiIgnore(a) + EncodeAsciiIgnore(b)
  {
    if a == [] {
      assert a + b == b;
    } else {
      assert (a + b)[0] == a[0] && (a + b)[1..] == a[1..] + b;
      EncodeAsciiIgnoreConcat(a[1..], b);
      var head := if IsAscii(a[0]) then [a[0]] else [];
      assert EncodeAsciiIgnore(a + b) == head + (EncodeAsciiIgnore(a[1..]) + EncodeAsciiIgnore(b));
    }
  }

  /** A text comes through unchanged exactly when it is already ASCII. */
  lemma {:induction false} EncodeAsciiIgnoreFixesAscii(s: string)
    ensures EncodeAsciiIgnore(s) == s <==> AllAscii(s)
  {
    if s != [] {
      EncodeAsciiIgnoreFixesAscii(s[1..]);
      if !IsAscii(s[0]) {
        assert |EncodeAsciiIgnore(s)| < |s| by {
          assert |EncodeAsciiIgnore(s[1..])| <= |s[1..]|;
        }
      }
    }
  }

  // ------------------------------------------------------------------
  // Normalisation (_normalize_unicode, _normalize_values)
  // ------------------------------------------------------------------

  /** `_normalize_unicode`: NFKD decomposition, then every non-ASCII character dropped. */
  function NormalizeUnicode(nfkd: string -> string, text: string): (r: string)
    ensures AllAscii(r)
    ensures forall c :: IsAscii(c) ==> multiset(r)[c] == multiset(nfkd(text))[c]
  {
    EncodeAsciiIgnoreKeepsAscii(nfkd(text));
    EncodeAsciiIgnore(nfkd(text))
  }

  /** `str(key)`: a byte-string key as it is, a `unicode` key through the strict ASCII codec. */
  function KeyToStr(k: Key): (r: Result<string, Exception>)
    ensures r.Success? <==> k.BytesKey? || AllAscii(k.name)
    ensures r.Success? ==> r.value == k.name
    ensures r.Failure? ==> r.error == UnicodeEncodeError
  {
    match k
    case BytesKey(name) => Success(name)
    case TextKey(name) => if AllAscii(name) then Success(name) else Failure(UnicodeEncodeError)
  }

  /** Somewhere in `v` a dictionary has a `unicode` key that `str` cannot encode. */
  predicate HasNonAsciiKey(v: Value) {
    match v
    case List(items) => exists i :: 0 <= i < |items| && HasNonAsciiKey(items[i])
    case Dict(m) => exists k :: k in m && (KeyToStr(k).Failure? || HasNonAsciiKey(m[k]))
    case _ => false
  }

  /** No `unicode` is left anywhere in `v`, and every dictionary key is a byte string. */
  predicate Normalized(v: Value) {
    match v
    case Unicode(_) => false
    case List(items) => forall i :: 0 <= i < |items| ==> Normalized(items[i])
    case Dict(m) => forall k :: k in m ==> k.BytesKey? && Normalized(m[k])
    case _ => true
  }

  /** The keys of `dict((str(key), ...) for key in m)`. */
  function StrKeys(m: map<Key, Value>): set<Key> {
    set k | k in m :: BytesKey(k.name)
  }

  /**
   * The key of `m` whose entry lands under `k` of the rebuilt dictionary.
   * In Python 2 `u'a'` and `'a'` are one key, so a real dictionary holds at
   * most one of `TextKey(s)` and `BytesKey(s)`; the byte string wins here.
   */
  function SourceKey(m: map<Key, Value>, k: Key): (r: Key)
    requires k in StrKeys(m)
    ensures r in m && r.name == k.name
  {
    if k in m then k else TextKey(k.name)
  }

  /** `_normalize_values`: rebuild lists and dictionaries, fold `unicode` leaves to ASCII, keep the rest. */
  function NormalizeValues(nfkd: string -> string, v: Value): (r: Result<Value, Exception>)
    ensures r.Failure? <==> HasNonAsciiKey(v)
    ensures r.Failure? ==> r.error == UnicodeEncodeError
    ensures r.Success? ==> Normalized(r.value)
  {
    match v
    case Unicode(text) => Success(Str(NormalizeUnicode(nfkd, text)))
    case List(items) =>
      if exists i :: 0 <= i < |items| && NormalizeValues(nfkd, items[i]).Failure? then
        Failure(UnicodeEncodeError)
      else
        Success(List(seq(|items|, i requires 0 <= i < |items| => NormalizeValues(nfkd, items[i]).value)))
    case Dict(m) =>
      if exists k :: k in m && (KeyToStr(k).Failure? || NormalizeValues(nfkd, m[k]).Failure?) then
        Failure(UnicodeEncodeError)
      else
        Success(Dict(map k | k in StrKeys(m) :: NormalizeValues(nfkd, m[SourceKey(m, k)]).value))
    case _ => Success(v)
  }

  /** A `unicode` leaf becomes the byte string of its ASCII-folded NFKD form. */
  lemma NormalizeText(nfkd: string -> string, text: string)
    ensures NormalizeValues(nfkd, Unicode(text)) == Success(Str(NormalizeUnicode(nfkd, text)))
    ensures AllAscii(NormalizeValues(nfkd, Unicode(text)).value.bytes)
  {
  }

  /** A list becomes a list of the same length, element by element. */
  lemma NormalizeList(nfkd: string -> string, items: seq<Value>)
    requires !HasNonAsciiKey(List(items))
    ensures var r := NormalizeValues(nfkd, List(items)).value;
      r.List? && |r.items| == |items| &&
      forall i :: 0 <= i < |items| ==> Success(r.items[i]) == NormalizeValues(nfkd, items[i])
  {
  }

  /** Python 2 dictionary key equality: `u's'` and `'s'` are one key when `s` is ASCII. */
  ghost predicate DistinctKeys(m: map<Key, Value>) {
    forall s :: TextKey(s) in m && BytesKey(s) in m ==> !AllAscii(s)
  }

  /** A dictionary becomes one keyed by `str(key)`, each value normalised. */
  lemma NormalizeDict(nfkd: string -> string, m: map<Key, Value>)
    requires !HasNonAsciiKey(Dict(m))
    requires DistinctKeys(m)
    ensures var r := NormalizeValues(nfkd, Dict(m)).value;
      r.Dict? && r.entries.Keys == (set k | k in m :: BytesKey(k.name)) &&
      forall k :: k in m ==> Success(r.entries[BytesKey(k.name)]) == NormalizeValues(nfkd, m[k])
  {
    var r := NormalizeValues(nfkd, Dict(m)).value;
    forall k | k in m
      ensures Success(r.entries[BytesKey(k.name)]) == NormalizeValues(nfkd, m[k])
    {
      var o := BytesKey(k.name);
      assert o in StrKeys(m);
      assert KeyToStr(k).Success?;
      assert SourceKey(m, o) == k;
    }
  }

  /** Byte strings, integers, booleans and None come back as they are. */
  lemma NormalizeKeepsScalars(nfkd: string -> string, v: Value)
    requires v.Str? || v.Int? || v.Bool? || v.Null?
    ensures NormalizeValues(nfkd, v) == Success(v)
  {
  }

  /** A value with nothing left to normalise is its own normal form. */
  lemma {:induction false} NormalizedIsFixed(nfkd: string -> string, v: Value)
    requires Normalized(v)
    ensures NormalizeValues(nfkd, v) == Success(v)
  {
    match v
    case List(items) =>
      forall i | 0 <= i < |items|
        ensures NormalizeValues(nfkd, items[i]) == Success(items[i])
      {
        NormalizedIsFixed(nfkd, items[i]);
      }
      assert seq(|items|, i requires 0 <= i < |items| => NormalizeValues(nfkd, items[i]).value) == items;
    case Dict(m) =>
      forall k | k in m
        ensures NormalizeValues(nfkd, m[k]) == Success(m[k])
      {
        NormalizedIsFixed(nfkd, m[k]);
      }
      NormalizedDictIsFixed(nfkd, m);
    case _ =>
  }

  /** The dictionary step of NormalizedIsFixed: byte-string keys and fixed values give the same dictionary back. */
  lemma NormalizedDictIsFixed(nfkd: string -> string, m: map<Key, Value>)
    requires forall k :: k in m ==> k.BytesKey? && NormalizeValues(nfkd, m[k]) == Success(m[k])
    ensures NormalizeValues(nfkd, Dict(m)) == Success(Dict(m))
  {
    assert StrKeys(m) == m.Keys by {
      forall k | k in m ensures BytesKey(k.name) == k { }
    }
    var r := map k | k in StrKeys(m) :: NormalizeValues(nfkd, m[SourceKey(m, k)]).value;
    forall k | k in m ensures k in r && r[k] == m[k] {
      assert SourceKey(m, k) == k;
    }
    assert r == m;
  }

  /** Normalising twice is normalising once. */
  lemma NormalizeIdempotent(nfkd: string -> string, v: Value)
    requires NormalizeValues(nfkd, v).Success?
    ensures NormalizeValues(nfkd, NormalizeValues(nfkd, v).value) == NormalizeValues(nfkd, v)
  {
    NormalizedIsFixed(nfkd, NormalizeValues(nfkd, v).value);
  }

  /** Every byte string in `v`, leaf or key, is ASCII. */
  predicate BytesAscii(v: Value) {
    match v
    case Str(bytes) => AllAscii(bytes)
    case List(items) => forall i :: 0 <= i < |items| ==> BytesAscii(items[i])
    case Dict(m) => forall k :: k in m ==> (k.BytesKey? ==> AllAscii(k.name)) && BytesAscii(m[k])
    case _ => true
  }

  /** When the caller's byte strings are ASCII, the whole normalised message is. */
  lemma {:induction false} NormalizeYieldsAscii(nfkd: string -> string, v: Value)
    requires BytesAscii(v)
    requires NormalizeValues(nfkd, v).Success?
    ensures BytesAscii(NormalizeValues(nfkd, v).value)
  {
    match v
    case List(items) =>
      forall i | 0 <= i < |items|
        ensures BytesAscii(NormalizeValues(nfkd, items[i]).value)
      {
        NormalizeYieldsAscii(nfkd, items[i]);
      }
    case Dict(m) =>
      forall k | k in StrKeys(m)
        ensures AllAscii(k.name) && BytesAscii(NormalizeValues(nfkd, m[SourceKey(m, k)]).value)
      {
        NormalizeYieldsAscii(nfkd, m[SourceKey(m, k)]);
        assert KeyToStr(SourceKey(m, k)).Success?;
      }
    case _ =>
  }

  // ------------------------------------------------------------------
  // Credentials and the message dictionary
  // ------------------------------------------------------------------

  /** `token.encode('ascii')` when the token is `unicode`; any other token is kept. */
  function CoerceToken(token: Value): (r: Result<Value, Exception>)
    ensures r.Failure? <==> token.Unicode? && !AllAscii(token.text)
    ensures r.Failure? ==> r.error == UnicodeEncodeError
    ensures r.Success? ==> !r.value.Unicode?
    ensures r.Success? && token.Unicode? ==> r.value == Str(token.text)
    ensures !token.Unicode? ==> r == Success(token)
  {
    match token
    case Unicode(text) => if AllAscii(text) then Success(Str(text)) else Failure(UnicodeEncodeError)
    case _ => Success(token)
  }

  /** The key of `m` that the byte-string literal `name` finds (`u'name'` matches too). */
  function FindKey(m: map<Key, Value>, name: string): (r: Option<Key>)
    ensures r.Some? ==> r.value in m && r.value.name == name
    ensures r.None? <==> BytesKey(name) !in m && (TextKey(name) !in m || !AllAscii(name))
    ensures BytesKey(name) in m ==> r == Some(BytesKey(name))
    ensures r.Some? && r.value.TextKey? ==> AllAscii(name)
  {
    if BytesKey(name) in m then Some(BytesKey(name))
    else if TextKey(name) in m && AllAscii(name) then Some(TextKey(name))
    else None
  }

  /** `m.get(name)`: None when no key matches. */
  function DictGet(m: map<Key, Value>, name: string): (r: Value)
    ensures BytesKey(name) in m ==> r == m[BytesKey(name)]
    ensures BytesKey(name) !in m && TextKey(name) in m && AllAscii(name) ==> r == m[TextKey(name)]
    ensures BytesKey(name) !in m && (TextKey(name) !in m || !AllAscii(name)) ==> r == Null
  {
    match FindKey(m, name)
    case Some(k) => m[k]
    case None => Null
  }

  /** `m[name] = v`: an existing matching key keeps its place, otherwise the byte string is added. */
  function DictSet(m: map<Key, Value>, name: string, v: Value): (r: map<Key, Value>)
    ensures DictGet(r, name) == v
    ensures forall k :: k in m && k.name != name ==> k in r && r[k] == m[k]
    ensures r.Keys == m.Keys + {if FindKey(m, name).Some? then FindKey(m, name).value else BytesKey(name)}
  {
    match FindKey(m, name)
    case Some(k) => m[k := v]
    case None => m[BytesKey(name) := v]
  }

  /** The message `request` goes on with after `message['token'] = ...` (lines 77-80). */
  function WithToken(m: map<Key, Value>, botToken: Value, appToken: Value): (r: map<Key, Value>)
    ensures forall k :: k in m && k.name != "token" ==> k in r && r[k] == m[k]
    ensures r.Keys - m.Keys <= {BytesKey("token")}
    ensures DictGet(r, "as_user") == DictGet(m, "as_user")
    ensures DictGet(r, "token") in {botToken, appToken}
  {
    DictSet(m, "token", if Truthy(DictGet(m, "as_user")) then appToken else botToken)
  }

  /** The app credential is written exactly when `as_user` is truthy, over any earlier token; nothing else changes. */
  lemma TokenSelection(m: map<Key, Value>, botToken: Value, appToken: Value)
    ensures var r := WithToken(m, botToken, appToken);
      && (Truthy(DictGet(m, "as_user")) ==> DictGet(r, "token") == appToken)
      && (!Truthy(DictGet(m, "as_user")) ==> DictGet(r, "token") == botToken)
      && (forall k :: k in m && k.name != "token" ==> k in r && r[k] == m[k])
      && |r.Keys - m.Keys| <= 1
  {
  }

  /** A missing message (`None`, then `{}`) is sent with the bot credential as its only key. */
  lemma NoMessageHoldsOnlyToken(botToken: Value, appToken: Value)
    ensures WithToken(map[], botToken, appToken) == map[BytesKey("token") := botToken]
  {
  }

  // ------------------------------------------------------------------
  // The exchange with the API
  // ------------------------------------------------------------------

  const BaseUrl := "https://slack.com/api/"

  /** What goes to `urlfetch.fetch`: the URL and the message it form-encodes. */
  datatype Call = Call(url: string, payload: Value)

  /** What comes back from it. */
  datatype HttpResponse = HttpResponse(statusCode: int, content: string)

  /** The call made, if any, and what `request` returns or raises. */
  datatype Exchange = Exchange(call: Option<Call>, result: Result<Json, Exception>)

  /**
   * `response.status_code / 400` in Python 2: integer division that rounds
   * down, then its truth value. The test rejects exactly the codes from 400
   * up (and any negative code).
   */
  function StatusFails(status: int): (r: bool)
    ensures r <==> status >= 400 || status < 0
  {
    status / 400 != 0
  }

  /** Lines 97-106: the status test, then the `ok` envelope of the parsed body. */
  function Classify(response: HttpResponse, loads: string -> Option<Json>): (r: Result<Json, Exception>)
    ensures r.Success? ==>
      && loads(response.content) == Some(r.value)
      && r.value.JObject? && "ok" in r.value.members && r.value.members["ok"] != JBool(false)
    ensures (r.Failure? && IsSlackError(r.error)) <==>
      || StatusFails(response.statusCode)
      || (&& loads(response.content).Some?
          && loads(response.content).value.JObject?
          && "ok" in loads(response.content).value.members
          && loads(response.content).value.members["ok"] == JBool(false)
          && "error" in loads(response.content).value.members)
  {
    if StatusFails(response.statusCode) then
      Failure(SlackError(RawBody(response.content)))
    else
      match loads(response.content)
      case None => Failure(ValueError)
      case Some(content) =>
        if !content.JObject? then Failure(TypeError)
        else if "ok" !in content.members then Failure(KeyError("ok"))
        else if content.members["ok"] != JBool(false) then Success(content)
        else if "error" !in content.members then Failure(KeyError("error"))
        else if content.members["error"] == JString("ratelimited") then
          Failure(SlackLimitRateError(response.content))
        else
          Failure(SlackError(ErrorMember(content.members["error"])))
  }

  /** A failing status raises `SlackError` with the raw body, whatever the body would parse to. */
  lemma ClassifyStatusFirst(response: HttpResponse, loads: string -> Option<Json>, loads': string -> Option<Json>)
    requires response.statusCode >= 400
    ensures Classify(response, loads) == Classify(response, loads') == Failure(SlackError(RawBody(response.content)))
  {
  }

  /** Success is exactly a good status and a parsed object whose `ok` is not `False`; the result is that object. */
  lemma ClassifySuccess(response: HttpResponse, loads: string -> Option<Json>)
    requires 0 <= response.statusCode
    ensures Classify(response, loads).Success? <==>
      && response.statusCode < 400
      && loads(response.content).Some?
      && loads(response.content).value.JObject?
      && "ok" in loads(response.content).value.members
      && loads(response.content).value.members["ok"] != JBool(false)
    ensures Classify(response, loads).Success? ==> Classify(response, loads).value == loads(response.content).value
  {
  }

  /** `{"ok": false, "error": "ratelimited"}` raises `SlackLimitRateError` with the raw body, and only it does. */
  lemma ClassifyRateLimited(response: HttpResponse, loads: string -> Option<Json>)
    requires 0 <= response.statusCode
    ensures Classify(response, loads).Failure? && Classify(response, loads).error.SlackLimitRateError? <==>
      && response.statusCode < 400
      && loads(response.content).Some?
      && loads(response.content).value.JObject?
      && "ok" in loads(response.content).value.members
      && loads(response.content).value.members["ok"] == JBool(false)
      && "error" in loads(response.content).value.members
      && loads(response.content).value.members["error"] == JString("ratelimited")
    ensures Classify(response, loads).Failure? && Classify(response, loads).error.SlackLimitRateError? ==>
      Classify(response, loads).error.body == response.content
  {
  }

  /** Any other `{"ok": false, "error": e}` raises `SlackError` carrying `e`. */
  lemma ClassifyApiError(response: HttpResponse, loads: string -> Option<Json>, e: Json)
    requires 0 <= response.statusCode < 400
    requires loads(response.content).Some? && loads(response.content).value.JObject?
    requires var members := loads(response.content).value.members;
      "ok" in members && members["ok"] == JBool(false) && "error" in members && members["error"] == e
    requires e != JString("ratelimited")
    ensures Classify(response, loads) == Failure(SlackError(ErrorMember(e)))
  {
  }

  /** What `request` does once the token is in place: normalise, post, classify. */
  function Send(apiMethod: string, message: map<Key, Value>, nfkd: string -> string,
                fetch: Call -> HttpResponse, loads: string -> Option<Json>): (e: Exchange)
    ensures e.call.Some? ==> e.call.value.url == BaseUrl + apiMethod && Normalized(e.call.value.payload)
    ensures e.call.None? <==> HasNonAsciiKey(Dict(message))
    ensures e.call.None? ==> e.result == Failure(UnicodeEncodeError)
    ensures e.call.Some? ==>
      && Success(e.call.value.payload) == NormalizeValues(nfkd, Dict(message))
      && e.result == Classify(fetch(e.call.value), loads)
  {
    match NormalizeValues(nfkd, Dict(message))
    case Failure(err) => Exchange(None, Failure(err))
    case Success(payload) =>
      var call := Call(BaseUrl + apiMethod, payload);
      Exchange(Some(call), Classify(fetch(call), loads))
  }

  /** An HTTP error status reaching the server raises `SlackError` with the raw body, whatever was sent. */
  lemma SendHttpError(apiMethod: string, message: map<Key, Value>, nfkd: string -> string,
                      fetch: Call -> HttpResponse, loads: string -> Option<Json>)
    ensures var e := Send(apiMethod, message, nfkd, fetch, loads);
      e.call.Some? && fetch(e.call.value).statusCode >= 400 ==>
        e.result == Failure(SlackError(RawBody(fetch(e.call.value).content)))
  {
    var e := Send(apiMethod, message, nfkd, fetch, loads);
    if e.call.Some? && fetch(e.call.value).statusCode >= 400 {
      ClassifyStatusFirst(fetch(e.call.value), loads, loads);
    }
  }

  /** The posted message carries the chosen credential, normalised, under the byte-string key 'token'. */
  lemma {:induction false} SentTokenIsSelected(apiMethod: string, m: map<Key, Value>, botToken: Value, appToken: Value,
                                               nfkd: string -> string, fetch: Call -> HttpResponse, loads: string -> Option<Json>)
    ensures var e := Send(apiMethod, WithToken(m, botToken, appToken), nfkd, fetch, loads);
      var chosen := if Truthy(DictGet(m, "as_user")) then appToken else botToken;
      e.call.Some? ==>
        && e.call.value.payload.Dict?
        && BytesKey("token") in e.call.value.payload.entries
        && Success(e.call.value.payload.entries[BytesKey("token")]) == NormalizeValues(nfkd, chosen)
  {
    var prepared := WithToken(m, botToken, appToken);
    var chosen := if Truthy(DictGet(m, "as_user")) then appToken else botToken;
    var r := NormalizeValues(nfkd, Dict(prepared));
    if r.Success? {
      var t := FindKey(prepared, "token");
      assert t.Some?;
      assert prepared[t.value] == chosen;
      assert BytesKey("token") in StrKeys(prepared);
      assert SourceKey(prepared, BytesKey("token")) == t.value;
    }
  }

  /** Without a message the posted form holds just the token. */
  lemma NoMessageSendsOnlyToken(apiMethod: string, botToken: Value, appToken: Value,
                                nfkd: string -> string, fetch: Call -> HttpResponse, loads: string -> Option<Json>)
    requires !HasNonAsciiKey(botToken)
    ensures var e := Send(apiMethod, WithToken(map[], botToken, appToken), nfkd, fetch, loads);
      e.call.Some? && e.call.value.payload.Dict? && e.call.value.payload.entries.Keys == {BytesKey("token")}
  {
    NoMessageHoldsOnlyToken(botToken, appToken);
    var prepared := map[BytesKey("token") := botToken];
    assert StrKeys(prepared) == {BytesKey("token")};
    assert !HasNonAsciiKey(Dict(prepared));
  }

  // ------------------------------------------------------------------
  // The objects
  // ------------------------------------------------------------------

  /** A message dictionary the caller owns; `request` writes its 'token' in place. */
  class Message {
    var entries: map<Key, Value>

    constructor (entries: map<Key, Value>)
      ensures this.entries == entries
    {
      this.entries := entries;
    }

    /** `message[name] = v` */
    method SetItem(name: string, v: Value)
      modifies this
      ensures entries == DictSet(old(entries), name, v)
    {
      entries := DictSet(entries, name, v);
    }
  }

  /** The client: the bot credential and the app (user) credential. */
  class Slack {
    const botToken: Value
    const appToken: Value

    /** After construction neither credential is `unicode`. */
    predicate Valid() {
      !botToken.Unicode? && !appToken.Unicode?
    }

    constructor Init(botToken: Value, appToken: Value)
      requires !botToken.Unicode? && !appToken.Unicode?
      ensures Valid()
      ensures this.botToken == botToken && this.appToken == appToken
    {
      this.botToken := botToken;
      this.appToken := appToken;
    }

    /** `Slack(bot_token, app_token)`: a `unicode` credential is stored as ASCII bytes, and one that is not ASCII raises. */
    static method Create(botToken: Value, appToken: Value) returns (r: Result<Slack, Exception>)
      ensures r.Success? <==> CoerceToken(botToken).Success? && CoerceToken(appToken).Success?
      ensures r.Failure? ==> r.error == UnicodeEncodeError
      ensures r.Success? ==> fresh(r.value) && r.value.Valid()
      ensures r.Success? ==> r.value.botToken == CoerceToken(botToken).value && r.value.appToken == CoerceToken(appToken).value
    {
      var bot := CoerceToken(botToken);
      if bot.Failure? {
        return Failure(bot.error);
      }
      var app := CoerceToken(appToken);
      if app.Failure? {
        return Failure(app.error);
      }
      var client := new Slack.Init(bot.value, app.value);
      return Success(client);
    }

    /**
     * `request(method, message)`: the caller's dictionary gets its 'token'
     * written in place, then the message is normalised, posted and the
     * answer classified. A missing message stands for a fresh `{}`.
     */
    method Request(apiMethod: string, message: Message?, nfkd: string -> string,
                   fetch: Call -> HttpResponse, loads: string -> Option<Json>)
      returns (call: Option<Call>, result: Result<Json, Exception>)
      requires Valid()
      modifies message
      ensures message != null ==> message.entries == WithToken(old(message.entries), botToken, appToken)
      ensures Exchange(call, result) ==
        Send(apiMethod, WithToken(if message == null then map[] else old(message.entries), botToken, appToken),
             nfkd, fetch, loads)
    {
      var msg := message;
      if msg == null {
        msg := new Message(map[]);
      }
      if Truthy(DictGet(msg.entries, "as_user")) {
        msg.SetItem("token", appToken);
      } else {
        msg.SetItem("token", botToken);
      }
      var normalized := NormalizeValues(nfkd, Dict(msg.entries));
      if normalized.Failure? {
        return None, Failure(normalized.error);
      }
      var c := Call(BaseUrl + apiMethod, normalized.value);
      var response := fetch(c);
      call := Some(c);
      if StatusFails(response.statusCode) {
        return call, Failure(SlackError(RawBody(response.content)));
      }
      var parsed := loads(response.content);
      if parsed.None? {
        return call, Failure(ValueError);
      }
      var content := parsed.value;
      if !content.JObject? {
        return call, Failure(TypeError);
      }
      if "ok" !in content.members {
        return call, Failure(KeyError("ok"));
      }
      if content.members["ok"] == JBool(false) {
        if "error" !in content.members {
          return call, Failure(KeyError("error"));
        }
        if content.members["error"] == JString("ratelimited") {
          return call, Failure(SlackLimitRateError(response.content));
        }
        return call, Failure(SlackError(ErrorMember(content.members["error"])));
      }
      result := Success(loads(response.content).value);
    }

    /** `post_message(message)`: `request('chat.postMessage', message)`. */
    method PostMessage(message: Message?, nfkd: string -> string,
                       fetch: Call -> HttpResponse, loads: string -> Option<Json>)
      returns (call: Option<Call>, result: Result<Json, Exception>)
      requires Valid()
      modifies message
      ensures message != null ==> message.entries == WithToken(old(message.entries), botToken, appToken)
      ensures Exchange(call, result) ==
        Send("chat.postMessage", WithToken(if message == null then map[] else old(message.entries), botToken, appToken),
             nfkd, fetch, loads)
    {
      call, result := Request("chat.postMessage", message, nfkd, fetch, loads);
    }

    /** `update_message(message)`: `request('chat.update', message)`. */
    method UpdateMessage(message: Message?, nfkd: string -> string,
                         fetch: Call -> HttpResponse, loads: string -> Option<Json>)
      returns (call: Option<Call>, result: Result<Json, Exception>)
      requires Valid()
      modifies message
      ensures message != null ==> message.entries == WithToken(old(message.entries), botToken, appToken)
      ensures Exchange(call, result) ==
        Send("chat.update", WithToken(if message == null then map[] else old(message.entries), botToken, appToken),
             nfkd, fetch, loads)
    {
      call, result := Request("chat.update", message, nfkd, fetch, loads);
    }

    /** `delete_message(message)`: `request('chat.delete', message)`. */
    method DeleteMessage(message: Message?, nfkd: string -> string,
                         fetch: Call -> HttpResponse, loads: string -> Option<Json>)
      returns (call: Option<Call>, result: Result<Json, Exception>)
      requires Valid()
      modifies message
      ensures message != null ==> message.entries == WithToken(old(message.entries), botToken, appToken)
      ensures Exchange(call, result) ==
        Send("chat.delete", WithToken(if message == null then map[] else old(message.entries), botToken, appToken),
             nfkd, fetch, loads)
    {
      call, result := Request("chat.delete", message, nfkd, fetch, loads);
    }
  }
}
