# Stanwood Python utilities: Slack client and JSON encoder, in Dafny

This project models the two pieces of logic in the stanwood utilities
repository and proves what they promise.

- **`SlackApi`** (`slack.dfy`) models the Slack web API client of
  `stanwood/external_services/slack/slack.py`. A `Slack` object stores a
  bot credential and an app credential; a `unicode` credential is encoded
  to ASCII bytes, strictly. `Request` writes one credential into the caller's
  message dictionary, in place, under `'token'`: the app credential when
  `as_user` is truthy, otherwise the bot credential. It then rebuilds the
  message. Every `unicode` text is NFKD-decomposed and stripped of non-ASCII
  characters, every key goes through `str`, and lists and dictionaries are
  rebuilt element by element. The message is posted to
  `https://slack.com/api/<method>`, and the answer is classified:
  - a status of 400 or more raises `SlackError` with the raw body;
  - `{"ok": false, "error": "ratelimited"}` raises `SlackLimitRateError`;
  - any other `ok: false` raises `SlackError` with the `error` member;
  - an object whose `ok` is present and not `False` is returned as parsed;
    other bodies raise (see below).

  `PostMessage`, `UpdateMessage` and `DeleteMessage` are `Request` with a
  fixed method name.
- **`JsonEncoding`** (`json_encoder.dfy`) models `JsonEncoder.default` of
  `stanwood/handlers/base.py`. It converts lists, dictionaries, ndb models,
  datetimes, ndb keys and geo points into a tree that `json.dumps` can write.
  An ndb model becomes its field dictionary, with `'id'` set to
  `str(key.id())`. Primitives pass through, and any other value raises
  `TypeError`. A model without a key raises `AttributeError`.
- **`Wrappers`** (`wrappers.dfy`) holds `Option` and `Result`. A `Failure`
  stands for a raised Python exception.

The values are those of Python 2: `unicode` and byte `str` are distinct
(`Unicode`, `Str`), and `bool` is a subclass of `int`. Foreign code becomes a
parameter or an abstract field:

- `unicodedata.normalize('NFKD', .)` is the parameter `nfkd`.
- `urlfetch.fetch` is `fetch`, a function from the call made (URL and
  normalised message) to the HTTP status and body.
- `json.loads` is `loads`, which gives `None` for a body that is not JSON.
- An ndb model's `to_dict()` and `key.id()`, a datetime's `isoformat()` and a
  geo point's `__str__()` are fields of the `Obj` datatype.

Behaviour of the code that the model keeps:

- `encode('ascii')` is strict, so `Slack.Create` fails with
  `UnicodeEncodeError` on a non-ASCII `unicode` credential.
- `status_code / 400` is kept as Python 2 floor division. `StatusFails`
  shows that it is truthy for codes of 400 and up, and also for negative
  codes, which HTTP never produces.
- `str(key)` on a non-ASCII `unicode` dictionary key raises in Python 2, so
  normalisation can fail (`HasNonAsciiKey`). In that case nothing is posted,
  but the caller's dictionary already holds the token.
- `content['ok']` and `content['error']` raise `KeyError` when the member is
  missing. Subscripting a parsed body that is not an object raises
  `TypeError`, and a body that is not JSON raises `ValueError`. Only
  `ok` identical to `False` is an error. When `ok` is not `False`, `error`
  is not consulted.
- A model created without a key (no `key`, `id` or `parent` argument) has
  `key` None until it is put, so `obj.key.id()` raises `AttributeError`. A
  model created with only a `parent` has an incomplete key, whose `id()` is
  None, which `str` prints as `'None'`.

## Model

| member | source | states |
|---|---|---|
| `SlackApi.CoerceToken` | stanwood/external_services/slack/slack.py:42-45 | An ASCII `unicode` token becomes the equal byte string. A non-ASCII one raises `UnicodeEncodeError`. Any other token is kept as it is. |
| `SlackApi.Slack.Create` | stanwood/external_services/slack/slack.py:41-48 | Construction succeeds exactly when both tokens coerce. It then stores the coerced tokens, and neither is `unicode`. Otherwise it raises `UnicodeEncodeError`. |
| `SlackApi.EncodeAsciiIgnore` | stanwood/external_services/slack/slack.py:52 | `encode('ascii', 'ignore')` never fails. Its result is all ASCII and no longer than its input. |
| `SlackApi.EncodeAsciiIgnoreKeepsAscii` | stanwood/external_services/slack/slack.py:52 | Each ASCII character is kept as often as it occurs. No non-ASCII character survives. |
| `SlackApi.EncodeAsciiIgnoreConcat` | stanwood/external_services/slack/slack.py:52 | The kept characters stay in order: the encoding distributes over concatenation. |
| `SlackApi.EncodeAsciiIgnoreFixesAscii` | stanwood/external_services/slack/slack.py:52 | A text comes through unchanged if and only if it is already ASCII. |
| `SlackApi.NormalizeUnicode` | stanwood/external_services/slack/slack.py:50-52 | The result of NFKD then ASCII-ignore is all ASCII. It keeps every ASCII character of the NFKD form, with its count. |
| `SlackApi.KeyToStr` | stanwood/external_services/slack/slack.py:65 | `str(key)` is the key's text. It raises `UnicodeEncodeError` exactly for a non-ASCII `unicode` key. |
| `SlackApi.NormalizeValues` | stanwood/external_services/slack/slack.py:54-72 | Normalisation fails, with `UnicodeEncodeError`, if and only if some nested dictionary has a non-ASCII `unicode` key. On success, no `unicode` is left anywhere and every key is a byte string. |
| `SlackApi.NormalizeText` | stanwood/external_services/slack/slack.py:57-58 | A `unicode` leaf becomes the byte string of its folded NFKD form, which is ASCII only. |
| `SlackApi.NormalizeList` | stanwood/external_services/slack/slack.py:59-60 | A list becomes a list of the same length, and the i-th element is the normalisation of the i-th. |
| `SlackApi.NormalizeDict` | stanwood/external_services/slack/slack.py:61-70 | A dictionary becomes one whose keys are exactly `str(key)` of its keys. The value under each is the normalised original value. |
| `SlackApi.NormalizeKeepsScalars` | stanwood/external_services/slack/slack.py:71-72 | Byte strings, ints, bools and None come back unchanged. |
| `SlackApi.NormalizedIsFixed` | stanwood/external_services/slack/slack.py:55-72 | A value with no `unicode` and only byte-string keys is its own normal form. |
| `SlackApi.NormalizeIdempotent` | stanwood/external_services/slack/slack.py:55-72 | Normalising a normalised message changes nothing. |
| `SlackApi.NormalizeYieldsAscii` | stanwood/external_services/slack/slack.py:55-72 | If every byte string of the input is ASCII, every byte string of the result is ASCII too, keys included. |
| `SlackApi.Truthy` | stanwood/external_services/slack/slack.py:77 | A value is falsy exactly when it is None, `False`, `0`, or an empty text, byte string, list or dictionary. |
| `SlackApi.FindKey` | stanwood/external_services/slack/slack.py:77 | The key that the literal `'name'` finds is the byte-string key whenever that is present, or failing that the equal `unicode` key, which only matches when the name is ASCII. There is none exactly when neither is present. |
| `SlackApi.DictGet` | stanwood/external_services/slack/slack.py:77 | `m.get(name)` is the value under the byte-string key if present, else under the equal ASCII `unicode` key, else None. |
| `SlackApi.DictSet` | stanwood/external_services/slack/slack.py:78-80 | After `m[name] = v`, `m.get(name)` is `v`. Every other key keeps its value, and at most the byte-string key is added. |
| `SlackApi.Message.SetItem` | stanwood/external_services/slack/slack.py:78-80 | The caller's dictionary object is updated in place by `DictSet`. |
| `SlackApi.WithToken` | stanwood/external_services/slack/slack.py:75-80 | Writing the token keeps every other key and its value, adds at most the byte-string key `'token'`, leaves `as_user` as it was, and stores one of the two credentials. |
| `SlackApi.TokenSelection` | stanwood/external_services/slack/slack.py:77-80 | The stored token is the app token if and only if `as_user` is truthy, otherwise the bot token, over any earlier token. Other keys are unchanged, and at most one key is added. |
| `SlackApi.NoMessageHoldsOnlyToken` | stanwood/external_services/slack/slack.py:75-80 | A `None` message becomes `{'token': bot_token}`. |
| `SlackApi.StatusFails` | stanwood/external_services/slack/slack.py:97 | `status_code / 400` is truthy if and only if the status is at least 400, or negative. |
| `SlackApi.Classify` | stanwood/external_services/slack/slack.py:97-106 | A success is the parsed body, an object whose `ok` is present and not `False`. A `SlackError` (a `SlackLimitRateError` included) is raised if and only if the status fails or the parsed object has `ok` identical to `False` and an `error` member. |
| `SlackApi.ClassifyStatusFirst` | stanwood/external_services/slack/slack.py:97-100 | A status of 400 or more raises `SlackError` with the raw body, whatever the body would parse to. |
| `SlackApi.ClassifySuccess` | stanwood/external_services/slack/slack.py:97-106 | The call succeeds if and only if the status is below 400 and the body parses to an object whose `ok` is present and not `False`. The result is that parsed object. |
| `SlackApi.ClassifyRateLimited` | stanwood/external_services/slack/slack.py:101-103 | `SlackLimitRateError` is raised if and only if `ok` is `False` and `error` is `"ratelimited"`. It carries the raw body. |
| `SlackApi.ClassifyApiError` | stanwood/external_services/slack/slack.py:101-105 | Any other `error` under `ok: false` raises `SlackError` carrying that `error` value. |
| `SlackApi.Send` | stanwood/external_services/slack/slack.py:82-106 | The call goes to `BASE_URL + method` with a normalised message. Nothing is posted if and only if normalisation fails, and then the result is `UnicodeEncodeError`. Otherwise the posted message is the normalisation of the given one, and the result is the classification of the response to that call. |
| `SlackApi.SendHttpError` | stanwood/external_services/slack/slack.py:91-98 | Once the call is made, a response status of 400 or more raises `SlackError` with the raw body. |
| `SlackApi.SentTokenIsSelected` | stanwood/external_services/slack/slack.py:77-95 | The posted message holds, under the byte-string key `'token'`, the normalised selected credential. |
| `SlackApi.NoMessageSendsOnlyToken` | stanwood/external_services/slack/slack.py:75-95 | Without a message, the posted form has exactly one key, `'token'`. |
| `SlackApi.Slack.Request` | stanwood/external_services/slack/slack.py:74-106 | The caller's dictionary ends up with the token written in place. The call made and the result are those of `Send` on that dictionary, or on `{'token': ...}` for `None`. |
| `SlackApi.Slack.PostMessage` | stanwood/external_services/slack/slack.py:108-109 | Same effect and result as `request('chat.postMessage', message)`. |
| `SlackApi.Slack.UpdateMessage` | stanwood/external_services/slack/slack.py:111-112 | Same effect and result as `request('chat.update', message)`. |
| `SlackApi.Slack.DeleteMessage` | stanwood/external_services/slack/slack.py:114-115 | Same effect and result as `request('chat.delete', message)`. |
| `JsonEncoding.Default` | stanwood/handlers/base.py:35-59 | `default` fails if and only if it reaches an unknown value (or a `long`) or a model whose `key` is None, ignoring a model field named `'id'`. A successful result holds only lists, dicts, strings, ints, floats, bools and None. |
| `JsonEncoding.DefaultList` | stanwood/handlers/base.py:36-37 | A list becomes a list of the same length, and the i-th element is `default` of the i-th. |
| `JsonEncoding.DefaultDict` | stanwood/handlers/base.py:39-40 | A dictionary keeps exactly its key set, with each value converted. |
| `JsonEncoding.ModelData` | stanwood/handlers/base.py:43-44 | The model's dictionary has the field names plus `'id'` as keys. |
| `JsonEncoding.ModelWithoutKeyFails` | stanwood/handlers/base.py:42-44 | A model whose `key` is None raises, even when all its fields convert. |
| `JsonEncoding.ModelAsDict` | stanwood/handlers/base.py:42-45 | A model with a key converts exactly as `default` of its `to_dict()` with `'id'` set to `str(key.id())`. |
| `JsonEncoding.ModelId` | stanwood/handlers/base.py:42-45 | The key's id overrides any `'id'` field. Every other field keeps its name and is converted. |
| `JsonEncoding.DefaultStringForms` | stanwood/handlers/base.py:47-57 | A datetime becomes its ISO string, a key `str(id)`, and a geo point its string form. |
| `JsonEncoding.DefaultKeepsPrimitives` | stanwood/handlers/base.py:50-51 | `unicode`, `str`, `int`, `float`, `bool` and None are returned unchanged. |
| `JsonEncoding.DefaultRefusesOther` | stanwood/handlers/base.py:59 | Any other value, a `long` included, raises the base encoder's `TypeError`. |
| `JsonEncoding.JsonSafeIsFixed` | stanwood/handlers/base.py:35-51 | A tree that is already JSON-safe comes back unchanged. |
| `JsonEncoding.DefaultIdempotent` | stanwood/handlers/base.py:35-59 | Converting a converted value changes nothing. |
| `JsonEncoding.Digits` | stanwood/handlers/base.py:44 | The decimal form of an integer id is nonempty, all digits, and has no leading zero. |
| `JsonEncoding.DigitsRoundTrip` | stanwood/handlers/base.py:44 | Reading the digits back gives the number. |
| `JsonEncoding.IntToStr` | stanwood/handlers/base.py:44 | `str(n)` is nonempty, starts with `'-'` exactly for a negative number, is otherwise all digits, and has no leading zero. |
| `JsonEncoding.IdToStr` | stanwood/handlers/base.py:53-54 | `str(key.id())`, also used for the model id at line 44: an integer id prints with a sign only when negative and no leading zero, so that `int` reads it back, a string name prints as itself, and a missing id prints as `'None'`. |
| `JsonEncoding.IntToStrRoundTrip` | stanwood/handlers/base.py:44 | `int(str(n)) == n`: the printed integer id determines the id. |

## Left out

- HTTP transport: `urlfetch.fetch` and the form encoding of `urllib.urlencode` are the parameter `fetch`. The model records the URL and the normalised message it is given, not the encoded bytes.
- `json.loads` is the parameter `loads`. JSON numbers are modelled as integers only.
- `unicodedata.normalize('NFKD', .)` is the parameter `nfkd`, with no decomposition tables.
- Logging: the two `logging.debug` calls in `request` and `logging.exception` in the handler write output, which is not modelled. The `format` call at slack.py:84 is evaluated before the POST whatever the log level, and its one failure is listed under `SlackApi.Send` below.
- SlackApi.Send: `Send` and `Slack.Request` take the method name as an ASCII byte string. A non-ASCII `unicode` method raises `UnicodeEncodeError` at slack.py:84, after the token is written and before anything is posted. Every method name the source passes (slack.py:109-115) is such a string.
- `BaseHandler.dispatch`, `handle_exception`, `json_response` and `xml_response` (stanwood/handlers/base.py:62-91): these are webapp2 plumbing over a response object and a framework `dispatch` outside this model. `CorsMixin` is not part of this model.
- The message text of exceptions: `TypeError`, `KeyError` and `UnicodeEncodeError` carry no message here. `KeyError` carries only the missing key.
- Dictionary keys in `SlackApi` are `unicode` or byte strings. Integer or other keys, whose `str` could collide with a string key in an order Python leaves unspecified, are not modelled.
- Message values in `SlackApi` are text, bytes, ints, bools, None, lists and dictionaries. Other values (floats, objects) are returned unchanged by normalisation, just as ints are.
- `SlackApi.NormalizeDict` requires `DistinctKeys`: a dictionary never holds both `u's'` and `'s'` for ASCII `s`, which Python 2 treats as one key. Without it, the byte-string key's value is kept.
- `SlackApi.NoMessageSendsOnlyToken` requires a bot token without a non-ASCII `unicode` dictionary key inside. Any string token meets this.
- `SlackApi.ClassifySuccess`, `ClassifyRateLimited` and `ClassifyApiError` are stated for non-negative status codes. `StatusFails` and `Classify` cover negative codes.
- `JsonEncoding.Default`: the failure does not say which exception escapes (`TypeError` for an unknown value, `AttributeError` for a model without a key). In a list or dictionary holding both kinds, Python raises the first one it meets, and dictionary order is unspecified.
- `JsonEncoding.IdToStr` takes a string id as the byte string `key.id()` returns. A non-ASCII `unicode` name is not modelled.
- Python 2 subclass checks: the model takes `list`, `dict`, `datetime`, `ndb.Model`, `ndb.Key` and `ndb.GeoPt` as disjoint tags. A subclass of `list` or `dict` is not considered.
