/**
 * `JsonEncoder.default` of stanwood/handlers/base.py: the conversion of a
 * response value into a tree that `json.dumps` can write.
 *
 * Lists and dictionaries are rebuilt, an ndb model becomes the dictionary
 * of its fields with its key's id under 'id', a datetime, an ndb key and a
 * geo point become byte strings, primitives stay, and anything else is
 * refused with a `TypeError`. A model created without a key (no `key`,
 * `id` or `parent` argument) has `key` None until it is put, and reading
 * its id raises `AttributeError`. The foreign parts (`to_dict`,
 * `key`, `key.id()`, `isoformat`, `GeoPt.__str__`) are the abstract fields
 * of `Obj`.
 */
module JsonEncoding {
  import opened Wrappers

  /** A dictionary key; `default` keeps keys as they are. */
  datatype Key = TextKey(name: string) | BytesKey(name: string) | IntKey(n: int)

  /** What `key.id()` returns: an integer id, a string name, or None for an incomplete key. */
  datatype Id = IntId(n: int) | NameId(name: string) | NoId

  /** The Python 2 values `default` tells apart. */
  datatype Obj =
    | List(items: seq<Obj>)
    | Dict(entries: map<Key, Obj>)
    | Model(fields: map<string, Obj>, key: Option<Id>)  // `to_dict()` and `key.id()` of an ndb.Model; None when `key` is None
    | DateTime(iso: string)                      // `isoformat()` of a datetime.datetime
    | Unicode(text: string)
    | Str(bytes: string)
    | Int(n: int)                                // a Python 2 `int`
    | Long(n: int)                               // a Python 2 `long`: not an `int`, so refused
    | Float(literal: string)                     // passed through untouched
    | Bool(b: bool)                              // a subclass of `int`
    | Null
    | NdbKey(id: Id)                             // an ndb.Key
    | GeoPt(repr: string)                        // `__str__()` of an ndb.GeoPt
    | Other(typeName: string)                    // anything else

  /**
   * `default` raises: the `TypeError` of `json.JSONEncoder.default` for a
   * value it does not know, or `AttributeError` for a model whose `key` is None.
   */
  datatype EncodeError = Raised

  // ------------------------------------------------------------------
  // str() of an id
  // ------------------------------------------------------------------

  function DigitChar(d: nat): char
    requires d < 10
  {
    "0123456789"[d]
  }

  predicate IsDigit(c: char) {
    '0' <= c <= '9'
  }

  /** The decimal digits of `n`, most significant first, with no leading zero. */
  function Digits(n: nat): (r: string)
    ensures |r| > 0 && forall i :: 0 <= i < |r| ==> IsDigit(r[i])
    ensures |r| > 1 ==> r[0] != '0'
    decreases n
  {
    if n < 10 then [DigitChar(n)] else Digits(n / 10) + [DigitChar(n % 10)]
  }

  /** The number a string of decimal digits denotes. */
  function DigitsValue(s: string): int
    requires forall i :: 0 <= i < |s| ==> IsDigit(s[i])
  {
    if s == [] then 0
    else DigitsValue(s[..|s| - 1]) * 10 + (s[|s| - 1] as int - '0' as int)
  }

  /** Reading the digits back gives the number. */
  lemma {:induction false} DigitsRoundTrip(n: nat)
    ensures DigitsValue(Digits(n)) == n
  {
    var r := Digits(n);
    if n >= 10 {
      DigitsRoundTrip(n / 10);
      assert r[..|r| - 1] == Digits(n / 10);
      assert r[|r| - 1] == DigitChar(n % 10);
    }
  }

  /** `str(n)` of an integer: a minus sign for a negative number, then the digits. */
  function IntToStr(n: int): (s: string)
    ensures |s| > 0 && (s[0] == '-' <==> n < 0)
    ensures forall i :: 0 < i < |s| ==> IsDigit(s[i])
    ensures n >= 0 ==> IsDigit(s[0])
    ensures n >= 0 && |s| > 1 ==> s[0] != '0'
    ensures n < 0 ==> |s| > 1 && s[1] != '0'
  {
    if n < 0 then "-" + Digits(-n) else Digits(n)
  }

  /** `str(key.id())`: an integer id prints so that `int` reads it back, a name is itself, None prints 'None'. */
  function IdToStr(id: Id): (r: string)
    ensures id.IntId? ==>
      && |r| > 0 && (r[0] == '-' || IsDigit(r[0])) && (forall i :: 0 < i < |r| ==> IsDigit(r[i]))
      && StrToInt(r) == id.n
    ensures id.IntId? ==> (r[0] == '-' <==> id.n < 0)
    ensures id.IntId? && id.n >= 0 && |r| > 1 ==> r[0] != '0'
    ensures id.IntId? && id.n < 0 ==> |r| > 1 && r[1] != '0'
    ensures id.NameId? ==> r == id.name
    ensures id.NoId? ==> r == "None"
  {
    match id
    case IntId(n) => IntToStrRoundTrip(n); IntToStr(n)
    case NameId(name) => name
    case NoId => "None"
  }

  /** `int(s)` for what `str` prints: an optional minus sign, then decimal digits. */
  function StrToInt(s: string): int
    requires |s| > 0 && forall i :: 0 < i < |s| ==> IsDigit(s[i])
    requires s[0] == '-' || IsDigit(s[0])
  {
    if s[0] == '-' then -DigitsValue(s[1..]) else DigitsValue(s)
  }

  /** `int(str(n)) == n`: the printed id determines the integer id. */
  lemma IntToStrRoundTrip(n: int)
    ensures var s := IntToStr(n);
      |s| > 0 && (s[0] == '-' || IsDigit(s[0])) && (forall i :: 0 < i < |s| ==> IsDigit(s[i])) &&
      StrToInt(s) == n
  {
    var s := IntToStr(n);
    if n < 0 {
      var d := Digits(-n);
      assert s == "-" + d;
      assert s[1..] == d;
      DigitsRoundTrip(-n);
      assert StrToInt(s) == -DigitsValue(d);
    } else {
      DigitsRoundTrip(n);
      assert s[0] != '-';
    }
  }

  // ------------------------------------------------------------------
  // default()
  // ------------------------------------------------------------------

  /** Only lists, dictionaries, strings, `int`, `float`, booleans and None: what `default` passes through. */
  predicate JsonSafe(o: Obj) {
    match o
    case List(items) => forall i :: 0 <= i < |items| ==> JsonSafe(items[i])
    case Dict(m) => forall k :: k in m ==> JsonSafe(m[k])
    case Unicode(_) => true
    case Str(_) => true
    case Int(_) => true
    case Float(_) => true
    case Bool(_) => true
    case Null => true
    case _ => false
  }

  /**
   * Somewhere `default` reaches a value it does not know, or a model
   * without a key. A model field named 'id' is never reached: the key's id
   * replaces it.
   */
  predicate Unencodable(o: Obj) {
    match o
    case List(items) => exists i :: 0 <= i < |items| && Unencodable(items[i])
    case Dict(m) => exists k :: k in m && Unencodable(m[k])
    case Model(fields, key) =>
      key.None? || exists name :: name in fields && name != "id" && Unencodable(fields[name])
    case Long(_) => true
    case Other(_) => true
    case _ => false
  }

  /** The keys of `obj.to_dict()` once 'id' is set. */
  function ModelKeys(fields: map<string, Obj>): set<Key> {
    (set name | name in fields :: BytesKey(name)) + {BytesKey("id")}
  }

  /** `data = obj.to_dict(); data['id'] = str(obj.key.id())` */
  function ModelData(fields: map<string, Obj>, id: Id): (data: map<Key, Obj>)
    ensures data.Keys == ModelKeys(fields)
    ensures data[BytesKey("id")] == Str(IdToStr(id))
    ensures forall name :: name in fields && name != "id" ==> data[BytesKey(name)] == fields[name]
    ensures forall k :: k in data ==> k == BytesKey("id") || (k.BytesKey? && k.name in fields && k.name != "id")
  {
    (map name | name in fields :: BytesKey(name) := fields[name])[BytesKey("id") := Str(IdToStr(id))]
  }

  /** `JsonEncoder.default(obj)` (lines 35-59). */
  function Default(o: Obj): (r: Result<Obj, EncodeError>)
    ensures r.Success? ==> JsonSafe(r.value)
    ensures r.Failure? <==> Unencodable(o)
  {
    match o
    case List(items) =>
      if exists i :: 0 <= i < |items| && Default(items[i]).Failure? then
        Failure(Raised)
      else
        Success(List(seq(|items|, i requires 0 <= i < |items| => Default(items[i]).value)))
    case Dict(m) =>
      if exists k :: k in m && Default(m[k]).Failure? then
        Failure(Raised)
      else
        Success(Dict(map k | k in m :: Default(m[k]).value))
    case Model(fields, key) =>
      if key.None? then
        Failure(Raised)
      // the fields are converted first, so that each call is on a part of `o`; ModelAsDict shows the order does not matter
      else if exists name :: name in fields && name != "id" && Default(fields[name]).Failure? then
        Failure(Raised)
      else
        var converted := map name | name in fields && name != "id" :: Default(fields[name]).value;
        Success(Dict(ModelData(converted, key.value)))
    case DateTime(iso) => Success(Str(iso))
    case Unicode(_) => Success(o)
    case Str(_) => Success(o)
    case Int(_) => Success(o)
    case Float(_) => Success(o)
    case Bool(_) => Success(o)
    case Null => Success(o)
    case NdbKey(id) => Success(Str(IdToStr(id)))
    case GeoPt(repr) => Success(Str(repr))
    case Long(_) => Failure(Raised)
    case Other(_) => Failure(Raised)
  }

  /** A list becomes a list of the same length whose i-th element is the conversion of the i-th. */
  lemma DefaultList(items: seq<Obj>)
    requires Default(List(items)).Success?
    ensures var r := Default(List(items)).value;
      r.List? && |r.items| == |items| &&
      forall i :: 0 <= i < |items| ==> Success(r.items[i]) == Default(items[i])
  {
  }

  /** A dictionary keeps its key set exactly, each value converted. */
  lemma DefaultDict(m: map<Key, Obj>)
    requires Default(Dict(m)).Success?
    ensures var r := Default(Dict(m)).value;
      r.Dict? && r.entries.Keys == m.Keys &&
      forall k :: k in m ==> Success(r.entries[k]) == Default(m[k])
  {
  }

  /** A model converts as the dictionary of its fields with 'id' set to `str(key.id())`. */
  lemma ModelAsDict(fields: map<string, Obj>, id: Id)
    ensures Default(Model(fields, Some(id))) == Default(Dict(ModelData(fields, id)))
  {
    var data := ModelData(fields, id);
    if Default(Model(fields, Some(id))).Failure? {
      var name :| name in fields && name != "id" && Default(fields[name]).Failure?;
      assert BytesKey(name) in data && Default(data[BytesKey(name)]).Failure?;
    } else {
      forall k | k in data ensures Default(data[k]).Success? {
        if k != BytesKey("id") {
          assert data[k] == fields[k.name];
        }
      }
      assert Default(Dict(data)).Success?;
      DefaultDict(data);
      ModelId(fields, id);
      var r := Default(Model(fields, Some(id))).value.entries;
      var r' := Default(Dict(data)).value.entries;
      forall k | k in r ensures r[k] == r'[k] {
        if k != BytesKey("id") {
          assert data[k] == fields[k.name];
        }
      }
      assert r == r';
    }
  }

  /** The key's id wins over any 'id' field of the model, and the other fields keep their names. */
  lemma ModelId(fields: map<string, Obj>, id: Id)
    requires Default(Model(fields, Some(id))).Success?
    ensures var r := Default(Model(fields, Some(id))).value;
      && r.Dict?
      && r.entries.Keys == ModelKeys(fields)
      && r.entries[BytesKey("id")] == Str(IdToStr(id))
      && forall name :: name in fields && name != "id" ==> Success(r.entries[BytesKey(name)]) == Default(fields[name])
  {
    var converted := map name | name in fields && name != "id" :: Default(fields[name]).value;
    var r := ModelData(converted, id);
    assert Default(Model(fields, Some(id))).value.entries == r;
    forall name | name in fields && name != "id"
      ensures Success(r[BytesKey(name)]) == Default(fields[name])
    {
      assert name in converted;
    }
    assert r.Keys == ModelKeys(fields) by {
      forall k | k in ModelKeys(fields) ensures k in r {
        if k != BytesKey("id") {
          assert k.name in converted;
        }
      }
    }
  }

  /** A model whose `key` is None raises, however encodable its fields are. */
  lemma ModelWithoutKeyFails(fields: map<string, Obj>)
    ensures Default(Model(fields, None)) == Failure(Raised)
  {
  }

  /** A datetime, an ndb key and a geo point become their string forms. */
  lemma DefaultStringForms(iso: string, id: Id, repr: string)
    ensures Default(DateTime(iso)) == Success(Str(iso))
    ensures Default(NdbKey(id)) == Success(Str(IdToStr(id)))
    ensures Default(GeoPt(repr)) == Success(Str(repr))
  {
  }

  /** Strings, numbers, booleans and None come back unchanged. */
  lemma DefaultKeepsPrimitives(o: Obj)
    requires o.Unicode? || o.Str? || o.Int? || o.Float? || o.Bool? || o.Null?
    ensures Default(o) == Success(o)
  {
  }

  /** Any other value is refused, a `long` among them. */
  lemma DefaultRefusesOther(typeName: string, n: int)
    ensures Default(Other(typeName)) == Failure(Raised)
    ensures Default(Long(n)) == Failure(Raised)
  {
  }

  /** A tree `json.dumps` can already write comes back as it is. */
  lemma {:induction false} JsonSafeIsFixed(o: Obj)
    requires JsonSafe(o)
    ensures Default(o) == Success(o)
  {
    match o
    case List(items) =>
      forall i | 0 <= i < |items| ensures Default(items[i]) == Success(items[i]) {
        JsonSafeIsFixed(items[i]);
      }
      assert seq(|items|, i requires 0 <= i < |items| => Default(items[i]).value) == items;
    case Dict(m) =>
      forall k | k in m ensures Default(m[k]) == Success(m[k]) {
        JsonSafeIsFixed(m[k]);
      }
      JsonSafeDictIsFixed(m);
    case _ =>
  }

  /** The dictionary step of JsonSafeIsFixed. */
  lemma JsonSafeDictIsFixed(m: map<Key, Obj>)
    requires forall k :: k in m ==> Default(m[k]) == Success(m[k])
    ensures Default(Dict(m)) == Success(Dict(m))
  {
    var r := map k | k in m :: Default(m[k]).value;
    assert r == m;
  }

  /** Converting a converted value changes nothing. */
  lemma DefaultIdempotent(o: Obj)
    requires Default(o).Success?
    ensures Default(Default(o).value) == Default(o)
  {
    JsonSafeIsFixed(Default(o).value);
  }
}
