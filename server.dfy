/**
 * The request handlers of `app.py` that decide something, as functions from
 * the request and what storage answers to the HTTP status and JSON body of
 * the reply. Storage (`database.py`) is not modelled: what it returns, or
 * the exception it raises, is an input.
 */
module Server {
  import opened Common
  import opened Text

  /** A stored wish as `database.py` returns it. */
  datatype StoredWish = StoredWish(id: int, text: string, color: string, createdAt: string)

  /** A stored prediction as `database.py` returns it. */
  datatype StoredPrediction = StoredPrediction(id: int, text: string, color: string)

  /** The JSON object of a reply; a key a handler does not set is None. */
  datatype Body = Body(
    success: bool,
    error: Option<string>,
    message: Option<string>,
    wish: Option<StoredWish>,
    wishes: Option<seq<StoredWish>>,
    count: Option<nat>,
    prediction: Option<StoredPrediction>,
    totalWishes: Option<nat>)

  datatype Response = Response(status: nat, body: Body)

  const NoKeys: Body := Body(false, None, None, None, None, None, None, None)

  /** `jsonify({"success": False, "error": error}), status`. */
  function Failure(status: nat, error: string): (r: Response)
    ensures !r.body.success && r.body.error == Some(error) && r.status == status
  {
    Response(status, NoKeys.(error := Some(error)))
  }

  const MaxWishLength: nat := 200
  const DefaultLimit: nat := 20

  const EmptyError: string := "Текст пожелания не может быть пустым"
  const TooLongError: string := "Пожелание слишком длинное (макс. 200 символов)"
  const AddedMessage: string := "Шарик добавлен на ёлку!"
  const NoPredictionError: string := "No predictions found"

  /** The JSON types a `text` value can have besides a string. */
  datatype JsonKind = Null | Boolean | Integer | Float | Array | Object

  /** The `text` key of the request body: absent, a string, or a value of
      another JSON type. */
  datatype TextField = Absent | Str(s: string) | NotStr(kind: JsonKind)

  /** The name Python gives the type of a parsed JSON value. */
  function PyTypeName(k: JsonKind): string
  {
    match k
    case Null => "NoneType"
    case Boolean => "bool"
    case Integer => "int"
    case Float => "float"
    case Array => "list"
    case Object => "dict"
  }

  /** The colours `db.add_wish` draws a new wish's colour from. */
  const WishColors: seq<string> := ["red", "blue", "gold", "silver", "green", "purple"]

  /** What `db.add_wish(text)` does: return the stored wish, or raise. */
  datatype Storage = Saved(wish: StoredWish) | Raised(reason: string)

  /** The text `data.get('text', '').strip()` yields, when it yields one. */
  function SubmittedText(field: TextField): (t: Option<string>)
    ensures t.Some? <==> !field.NotStr?
    ensures field.Str? ==> t == Some(PyStrip(field.s))
    ensures field.Absent? ==> t == Some([])
  {
    match field
    case Absent => Some(PyStrip(""))
    case Str(s) => Some(PyStrip(s))
    case NotStr(_) => None
  }

  /** `add_wish`. A text that strips to nothing or to more than 200 code
      points is refused with 400 and storage is not called; otherwise the
      stripped text is stored and the reply is 200 with the stored wish and
      the fixed message; every exception, from `.strip()` on a value that
      is not a string or from storage, becomes 500 with its text. */
  function AddWish(field: TextField, store: string -> Storage): (r: Response)
    ensures r.status in {200, 400, 500}
    ensures r.body.success <==> r.status == 200
    ensures r.body.success ==> r.body == NoKeys.(success := true, wish := r.body.wish, message := Some(AddedMessage))
    ensures r.body.success ==> r.body.wish.Some?
    ensures !r.body.success ==> r.body == NoKeys.(error := r.body.error) && r.body.error.Some?
    ensures SubmittedText(field).None? ==> r.status == 500 && !r.body.success
  {
    match SubmittedText(field)
    case None => Failure(500, "'" + PyTypeName(field.kind) + "' object has no attribute 'strip'")
    case Some(text) =>
      if text == "" then Failure(400, EmptyError)
      else if |text| > MaxWishLength then Failure(400, TooLongError)
      else match store(text)
        case Raised(reason) => Failure(500, reason)
        case Saved(w) => Response(200, NoKeys.(success := true, wish := Some(w), message := Some(AddedMessage)))
  }

  /** The status is 400 exactly when the stripped text is empty or longer
      than 200 code points; 200 code points are accepted. */
  lemma AddWishRefusesExactly(field: TextField, store: string -> Storage)
    ensures AddWish(field, store).status == 400 <==>
      SubmittedText(field).Some? && (SubmittedText(field).value == [] || |SubmittedText(field).value| > MaxWishLength)
    ensures AddWish(field, store).status == 400 ==>
      AddWish(field, store) == Failure(400, if SubmittedText(field).value == [] then EmptyError else TooLongError)
  {
  }

  /** The too-long refusal is given exactly for a stripped text over 200
      code points. */
  lemma AddWishTooLongExactly(field: TextField, store: string -> Storage)
    ensures AddWish(field, store) == Failure(400, TooLongError) <==>
      SubmittedText(field).Some? && |SubmittedText(field).value| > MaxWishLength
  {
    assert |EmptyError| != |TooLongError|;
    AddWishRefusesExactly(field, store);
  }

  /** A missing text, and a text of whitespace only, are refused as empty. */
  lemma AddWishRefusesBlank(field: TextField, store: string -> Storage)
    requires field.Absent? || (field.Str? && AllWhite(field.s, IsPyWhite))
    ensures AddWish(field, store) == Failure(400, EmptyError)
  {
    if field.Str? {
      TrimEmptyIffAllWhite(field.s, IsPyWhite);
    } else {
      TrimEmptyIffAllWhite("", IsPyWhite);
    }
  }

  /** A `text` that is not a string makes `.strip()` raise before any
      check, and the handler answers 500 with Python's error text. */
  lemma AddWishOfNonString(kind: JsonKind, store: string -> Storage)
    ensures AddWish(NotStr(kind), store) ==
      Failure(500, "'" + PyTypeName(kind) + "' object has no attribute 'strip'")
    ensures kind == Null ==> AddWish(NotStr(kind), store).body.error == Some("'NoneType' object has no attribute 'strip'")
  {
    assert SubmittedText(NotStr(kind)).None?;
    if kind == Null {
      NoneTypeMessage();
    }
  }

  lemma NoneTypeMessage()
    ensures "'" + PyTypeName(Null) + "' object has no attribute 'strip'" == "'NoneType' object has no attribute 'strip'"
  {
    var name := PyTypeName(Null);
    assert name == "NoneType";
    assert "'" + "NoneType" + "' object has no attribute 'strip'" == "'NoneType' object has no attribute 'strip'";
  }

  /** Once validation passes, storage is handed the stripped text and the
      reply depends on nothing but what storage does with it: success with
      the stored wish, or 500 with the exception's text. */
  lemma AddWishStoresStripped(s: string, store: string -> Storage)
    requires 0 < |PyStrip(s)| <= MaxWishLength
    ensures store(PyStrip(s)).Saved? ==>
      AddWish(Str(s), store) == Response(200, NoKeys.(success := true, wish := Some(store(PyStrip(s)).wish), message := Some(AddedMessage)))
    ensures store(PyStrip(s)).Raised? ==> AddWish(Str(s), store) == Failure(500, store(PyStrip(s)).reason)
  {
    var text := PyStrip(s);
    assert SubmittedText(Str(s)) == Some(text);
    assert text != [] && !(|text| > MaxWishLength);
  }

  /** The decision on a text depends on its stripped form only. */
  lemma AddWishSeesStripped(s1: string, s2: string, store: string -> Storage)
    requires PyStrip(s1) == PyStrip(s2)
    ensures AddWish(Str(s1), store) == AddWish(Str(s2), store)
  {
  }

  /** A stripped text is refused exactly when it is empty or longer than
      200 code points. */
  lemma AddWishOfStripped(m: string, store: string -> Storage)
    requires PyStrip(m) == m
    ensures AddWish(Str(m), store).status != 400 <==> 0 < |m| <= MaxWishLength
  {
    AddWishRefusesExactly(Str(m), store);
  }

  /** A text padded with whitespace is judged by what lies between the
      padding, and that is what is stored. */
  lemma AddWishOfPadded(p: string, m: string, q: string, store: string -> Storage)
    requires AllWhite(p, IsPyWhite) && AllWhite(q, IsPyWhite)
    requires m == [] || (!IsPyWhite(m[0]) && !IsPyWhite(m[|m| - 1]))
    ensures AddWish(Str(p + m + q), store) == AddWish(Str(m), store)
    ensures AddWish(Str(p + m + q), store).status != 400 <==> 0 < |m| <= MaxWishLength
  {
    StripOfPaddedOuter(p, m, q);
    StripOfBare(m);
    AddWishSeesStripped(p + m + q, m, store);
    AddWishOfStripped(m, store);
  }

  /** `.strip()` removes exactly the padding around a text with non-blank
      ends, and leaves such a text as it is. */
  lemma StripOfPaddedOuter(p: string, m: string, q: string)
    requires AllWhite(p, IsPyWhite) && AllWhite(q, IsPyWhite)
    requires m == [] || (!IsPyWhite(m[0]) && !IsPyWhite(m[|m| - 1]))
    ensures PyStrip(p + m + q) == m
  {
    TrimOfPadded(p, m, q, IsPyWhite);
  }

  lemma StripOfBare(m: string)
    requires m == [] || (!IsPyWhite(m[0]) && !IsPyWhite(m[|m| - 1]))
    ensures PyStrip(m) == m
  {
    TrimOfBare(m, IsPyWhite);
  }

  /** Submitting the stored text again gets the same decision. */
  lemma AddWishStripIdempotent(s: string, store: string -> Storage)
    ensures AddWish(Str(PyStrip(s)), store) == AddWish(Str(s), store)
  {
    TrimIdempotent(s, IsPyWhite);
    AddWishSeesStripped(PyStrip(s), s, store);
  }

  /** `get_random_prediction`: 200 with the prediction when storage has
      one, 404 with an error otherwise. */
  function GetRandomPrediction(found: Option<StoredPrediction>): (r: Response)
    ensures r.body.success <==> found.Some?
    ensures found.Some? ==> r.status == 200 && r.body == NoKeys.(success := true, prediction := found)
    ensures found.None? ==> r == Failure(404, NoPredictionError)
  {
    match found
    case Some(p) => Response(200, NoKeys.(success := true, prediction := Some(p)))
    case None => Failure(404, NoPredictionError)
  }

  /** The `limit` query argument: absent, convertible by `int`, or not. */
  datatype LimitArg = NoLimit | Limit(n: int) | BadLimit

  /** `request.args.get('limit', 20, type=int)`: a missing argument and one
      `int` cannot convert both give the default. */
  function EffectiveLimit(arg: LimitArg): (n: int)
    ensures arg.Limit? ==> n == arg.n
    ensures !arg.Limit? ==> n == DefaultLimit
  {
    match arg
    case Limit(n) => n
    case _ => DefaultLimit
  }

  /** `get_recent_wishes`: the wishes storage returns for the effective
      limit, and their number. */
  function GetRecentWishes(arg: LimitArg, recent: int -> seq<StoredWish>): (r: Response)
    ensures r.status == 200 && r.body.success
    ensures r.body.wishes == Some(recent(EffectiveLimit(arg)))
    ensures r.body.count == Some(|r.body.wishes.value|)
    ensures r.body.error.None? && r.body.prediction.None?
  {
    var wishes := recent(EffectiveLimit(arg));
    Response(200, NoKeys.(success := true, wishes := Some(wishes), count := Some(|wishes|)))
  }

  /** `get_stats`: the number of visible wishes. */
  function GetStats(total: nat): (r: Response)
    ensures r.status == 200 && r.body.success && r.body.totalWishes == Some(total)
  {
    Response(200, NoKeys.(success := true, totalWishes := Some(total)))
  }
}
