/**
 * The browser and the server together: every reply of `app.py` as
 * `static/script.js` receives it, and what the two ends do with a wish
 * between them. Text travels as JSON, so a Python string of code points
 * arrives as the JavaScript string of its UTF-16 units, and the text the
 * browser posts arrives as the Python string those units decode to.
 */
module Exchange {
  import opened Common
  import opened Text
  import opened Layout
  import C = Controller
  import S = Server

  /** A string field of a reply as the browser receives it. */
  function ToClientText(o: Option<string>): (r: Option<JsString>)
    ensures r.Some? <==> o.Some?
    ensures o.Some? ==> DecodeUtf16(r.value) == o && (r.value == [] <==> o.value == [])
  {
    match o
    case None => None
    case Some(s) => DecodeUtf16OfUtf16(s); Some(Utf16(s))
  }

  /** A stored wish as the browser receives it; the id is not read. */
  function ToClientWish(w: S.StoredWish): (c: Wish)
    ensures DecodeUtf16(c.text) == Some(w.text) && DecodeUtf16(c.color) == Some(w.color)
    ensures DecodeUtf16(c.createdAt) == Some(w.createdAt)
  {
    DecodeUtf16OfUtf16(w.text);
    DecodeUtf16OfUtf16(w.color);
    DecodeUtf16OfUtf16(w.createdAt);
    Wish(Utf16(w.text), Utf16(w.color), Utf16(w.createdAt))
  }

  function ToClientWishes(ws: seq<S.StoredWish>): (cs: seq<Wish>)
    ensures |cs| == |ws|
    ensures forall i :: 0 <= i < |ws| ==> DecodeUtf16(cs[i].text) == Some(ws[i].text)
  {
    seq(|ws|, i requires 0 <= i < |ws| => ToClientWish(ws[i]))
  }

  /** What `await response.json()` yields for a reply of `app.py`: its
      body, whatever its status, since `fetch` does not throw on 400, 404
      or 500. The `count` key is not read by the browser. */
  function Deliver(r: S.Response): (f: C.Fetched)
    ensures f.Got? && f.data.success == r.body.success
    ensures f.data.error == ToClientText(r.body.error) && f.data.message == ToClientText(r.body.message)
    ensures f.data.wish.Some? <==> r.body.wish.Some?
    ensures f.data.wishes.Some? <==> r.body.wishes.Some?
    ensures r.body.wishes.Some? ==> |f.data.wishes.value| == |r.body.wishes.value|
    ensures f.data.totalWishes == r.body.totalWishes
    ensures f.data.prediction.Some? <==> r.body.prediction.Some?
    ensures r.body.wish.Some? ==> f.data.wish == Some(ToClientWish(r.body.wish.value))
    ensures r.body.wishes.Some? ==> f.data.wishes == Some(ToClientWishes(r.body.wishes.value))
    ensures r.body.prediction.Some? ==>
      f.data.prediction == Some(C.Prediction(Utf16(r.body.prediction.value.text), Utf16(r.body.prediction.value.color)))
  {
    var b := r.body;
    C.Got(C.Reply(
      b.success,
      ToClientText(b.message),
      ToClientText(b.error),
      match b.wish case None => None case Some(w) => Some(ToClientWish(w)),
      match b.wishes case None => None case Some(ws) => Some(ToClientWishes(ws)),
      b.totalWishes,
      match b.prediction
        case None => None
        case Some(p) => Some(C.Prediction(Utf16(p.text), Utf16(p.color)))))
  }

  /** The answer of `add_wish` to a text the browser posted. None when the
      text holds an unpaired surrogate, which has no Python string in this
      model. */
  function AnswerPost(text: JsString, store: string -> S.Storage): (f: Option<C.Fetched>)
    ensures f.Some? <==> DecodeUtf16(text).Some?
    ensures f.Some? ==> f.value.Got? && (f.value.data.success <==> S.AddWish(S.Str(DecodeUtf16(text).value), store).status == 200)
  {
    match DecodeUtf16(text)
    case None => None
    case Some(s) => Some(Deliver(S.AddWish(S.Str(s), store)))
  }

  // ---------------------------------------------------------------------
  // A wish between the two ends

  /** A text the browser lets through is never refused by the server for
      its length: a Python string has at most as many code points as its
      encoding has units. The server can still refuse it as empty when its
      ends are whitespace to Python only; here the text has none. */
  lemma ServerKeepsClientLimit(u: JsString, s: string, store: string -> S.Storage)
    requires C.CheckWish(u).Ok? && DecodeUtf16(JsTrim(u)) == Some(s) && PyStrip(s) == s
    ensures S.AddWish(S.Str(s), store).status != 400
  {
    Utf16OfDecodeUtf16(JsTrim(u));
    S.AddWishOfStripped(s, store);
  }

  /** Whatever the two whitespace sets make of a text the browser lets
      through, the server never finds it too long. */
  lemma ClientLimitWithinServer(u: JsString, s: string, store: string -> S.Storage)
    requires C.CheckWish(u).Ok? && DecodeUtf16(JsTrim(u)) == Some(s)
    ensures S.AddWish(S.Str(s), store) != S.Failure(400, S.TooLongError)
  {
    Utf16OfDecodeUtf16(JsTrim(u));
    assert |PyStrip(s)| <= |s| <= |Utf16(s)|;
    S.AddWishTooLongExactly(S.Str(s), store);
  }

  /** A wish that passes the browser's check, is not blank to Python, and
      that storage saves ends on the tree: the browser posts its encoding,
      the server stores it stripped of Python's whitespace, and the page
      adds one ornament for the stored wish, shows the server's message and
      fetches the list and the total again. */
  lemma AcceptedWishReachesTree(v: C.PageView, s: string, store: string -> S.Storage, w: S.StoredWish)
    requires C.CheckWish(v.input) == Ok(Utf16(s)) && PyStrip(s) != [] && store(PyStrip(s)) == S.Saved(w)
    ensures AnswerPost(Utf16(s), store).Some?
    ensures var step := C.AddWishStep(v, AnswerPost(Utf16(s), store).value);
      && step.sent == [C.PostWish(Utf16(s)), C.GetRecentWishes(C.RecentLimit), C.GetStats]
      && step.view.ornaments == v.ornaments + [NewBall(ToClientWish(w))]
      && step.view.message == C.Shown(Utf16(S.AddedMessage), C.Success)
      && step.view.input == []
  {
    DecodeUtf16OfUtf16(s);
    assert |PyStrip(s)| <= |s|;
    assert 0 < |PyStrip(s)| <= S.MaxWishLength;
    S.AddWishStoresStripped(s, store);
    var f := StoredReply(w);
    assert AnswerPost(Utf16(s), store) == Some(f);
    C.AddWishAccepted(v, f.data, ToClientWish(w));
  }

  /** The reply the browser gets when the server has stored a wish. */
  lemma StoredReply(w: S.StoredWish) returns (f: C.Fetched)
    ensures f == Deliver(S.Response(200, S.NoKeys.(success := true, wish := Some(w), message := Some(S.AddedMessage))))
    ensures f.Got? && f.data.success && f.data.wish == Some(ToClientWish(w))
    ensures C.OrElse(f.data.message, C.AddedMessage) == Utf16(S.AddedMessage)
  {
    f := Deliver(S.Response(200, S.NoKeys.(success := true, wish := Some(w), message := Some(S.AddedMessage))));
    assert Utf16(S.AddedMessage) != [] by { assert S.AddedMessage != []; }
  }

  /** Every colour the server gives a wish (database.py, line 86) reaches
      the browser as one of the names of its colour table, so its ornament
      and list marker get that colour's own code, never the white
      fallback. */
  lemma WishColorsHaveCodes(i: nat)
    requires i < |S.WishColors|
    ensures Utf16(S.WishColors[i]) == PaletteNames[i]
    ensures GetColorCode(Utf16(S.WishColors[i])) != White
  {
    var name := S.WishColors[i];
    if i == 0 { assert AllInBmp("red"); }
    else if i == 1 { assert AllInBmp("blue"); }
    else if i == 2 { assert AllInBmp("gold"); }
    else if i == 3 { assert AllInBmp("silver"); }
    else if i == 4 { assert AllInBmp("green"); }
    else { assert AllInBmp("purple"); }
    AllInBmpAt(name);
    LitIsUtf16(name);
    PaletteCodesDistinct();
  }

  /** The two length limits are not the same: a text of 101 to 200
      characters above the Basic Multilingual Plane (101 Christmas-tree
      emoji, U+1F384, say) has at most 200 code points for the server,
      which does not refuse it, but more than 200 units for the browser,
      which refuses it as too long without sending anything. */
  lemma ClientStricterThanServer(s: string, store: string -> S.Storage)
    requires 100 < |s| <= S.MaxWishLength && forall i :: 0 <= i < |s| ==> !InBmp(s[i])
    ensures S.AddWish(S.Str(s), store).status != 400
    ensures C.CheckWish(Utf16(s)) == Err(C.TooLongMessage)
  {
    ServerTakesAstral(s, store);
    AstralTextIsTrimmed(s);
  }

  lemma ServerTakesAstral(s: string, store: string -> S.Storage)
    requires 0 < |s| <= S.MaxWishLength && forall i :: 0 <= i < |s| ==> !InBmp(s[i])
    ensures S.AddWish(S.Str(s), store).status != 400
  {
    assert !InBmp(s[0]) && !InBmp(s[|s| - 1]);
    S.StripOfBare(s);
    S.AddWishOfStripped(s, store);
  }

  /** Such a text starts with a high and ends with a low surrogate, so
      `trim` leaves it as it is, and it takes two units per character. */
  lemma AstralTextIsTrimmed(s: string)
    requires s != [] && forall i :: 0 <= i < |s| ==> !InBmp(s[i])
    ensures JsTrim(Utf16(s)) == Utf16(s) && |Utf16(s)| == 2 * |s|
  {
    Utf16OfAstral(s);
    var u := Utf16(s);
    Utf16Ends(s);
    assert !InBmp(s[0]) && !InBmp(s[|s| - 1]);
    assert IsHighSurrogate(u[0]) && IsLowSurrogate(u[|u| - 1]);
    TrimOfBare(u, IsJsWhite);
  }

  /** One such text. */
  lemma ClientStricterOnTrees(store: string -> S.Storage)
    ensures var trees := seq(101, _ => '\U{1F384}');
      S.AddWish(S.Str(trees), store).status != 400 && C.CheckWish(Utf16(trees)) == Err(C.TooLongMessage)
  {
    var trees := seq(101, _ => '\U{1F384}');
    ClientStricterThanServer(trees, store);
  }

  /** The two whitespace sets are not the same either: a text that passes
      the browser's check but is whitespace to Python is posted, and the
      server refuses it as empty; the page keeps the input and shows the
      server's error. */
  lemma ServerRefusesPythonBlank(v: C.PageView, s: string, store: string -> S.Storage)
    requires C.CheckWish(v.input).Ok? && DecodeUtf16(JsTrim(v.input)) == Some(s) && PyStrip(s) == []
    ensures AnswerPost(JsTrim(v.input), store).Some?
    ensures var step := C.AddWishStep(v, AnswerPost(JsTrim(v.input), store).value);
      && step.sent == [C.PostWish(JsTrim(v.input))]
      && step.view.message == C.Shown(Utf16(S.EmptyError), C.Error)
      && step.view.input == v.input
  {
    assert S.SubmittedText(S.Str(s)) == Some([]);
    assert S.AddWish(S.Str(s), store) == S.Failure(400, S.EmptyError);
    var f := RefusedReply(S.EmptyError);
    assert AnswerPost(JsTrim(v.input), store) == Some(f);
    C.AddWishRefused(v, f);
  }

  /** U+001C is such a text: it is not whitespace to JavaScript, so the
      browser posts it as a wish, but it is to Python. */
  lemma ServerRefusesWhatClientSends(v: C.PageView, store: string -> S.Storage)
    requires v.input == [0x1C]
    ensures AnswerPost(v.input, store).Some?
    ensures var step := C.AddWishStep(v, AnswerPost(v.input, store).value);
      && step.sent == [C.PostWish(v.input)]
      && step.view.message == C.Shown(Utf16(S.EmptyError), C.Error)
      && step.view.input == v.input
  {
    ClientSendsSeparator(v.input);
    var s := SeparatorDecodes(v.input);
    ServerRefusesPythonBlank(v, s, store);
  }

  /** A posted U+001C decodes to a text that Python strips to nothing. */
  lemma SeparatorDecodes(u: JsString) returns (s: string)
    requires u == [0x1C]
    ensures DecodeUtf16(u) == Some(s) && PyStrip(s) == []
  {
    s := ['\U{1C}'];
    assert u[1..] == [] && DecodeUtf16([]) == Some([]);
    assert [u[0] as int as char] + [] == s;
    TrimEmptyIffAllWhite(s, IsPyWhite);
  }

  /** U+001C is not whitespace to JavaScript. */
  lemma ClientSendsSeparator(u: JsString)
    requires u == [0x1C]
    ensures C.CheckWish(u) == Ok(u)
  {
    TrimOfBare(u, IsJsWhite);
  }

  /** The reply the browser gets when the server refuses a wish. */
  lemma RefusedReply(error: string) returns (f: C.Fetched)
    requires error != []
    ensures f == Deliver(S.Failure(400, error))
    ensures f.Got? && !f.data.success && C.OrElse(f.data.error, C.AddFailedMessage) == Utf16(error)
  {
    f := Deliver(S.Failure(400, error));
  }

  // ---------------------------------------------------------------------
  // The other three requests

  /** The list the page asks for (the 20 most recent wishes) is shown as
      the server sent it: one entry per wish, and the first fourteen on
      the tree. */
  lemma RecentWishesReachPage(v: C.PageView, recent: int -> seq<S.StoredWish>)
    ensures var cs := ToClientWishes(recent(C.RecentLimit));
      C.LoadWishesStep(v, Deliver(S.GetRecentWishes(S.Limit(C.RecentLimit), recent)))
        == v.(currentWishes := Some(cs), wishList := Entries(cs), ornaments := Ornaments(cs))
    ensures |C.LoadWishesStep(v, Deliver(S.GetRecentWishes(S.Limit(C.RecentLimit), recent))).ornaments|
        == Min(|recent(C.RecentLimit)|, |Positions|)
  {
  }

  /** The header shows the server's total, digit for digit. */
  lemma TotalReachesPage(v: C.PageView, total: nat)
    ensures DecimalValue(C.LoadStatsStep(v, Deliver(S.GetStats(total))).wishCount) == total
  {
    DecimalTextRoundTrip(total);
  }

  /** A drawn prediction is shown with its text and the code of its
      colour; when there is none the server answers 404 and the page shows
      nothing at all, not even an error, and only restores the button. */
  lemma PredictionReachesPage(v: C.PageView, found: Option<S.StoredPrediction>)
    ensures found.Some? ==>
      C.GetPredictionStep(v, Deliver(S.GetRandomPrediction(found))).prediction
        == C.PredictionBox(true, Utf16(found.value.text), GetColorCode(Utf16(found.value.color)))
    ensures found.None? ==>
      C.GetPredictionStep(v, Deliver(S.GetRandomPrediction(found)))
        == v.(crackerButton := C.Button(v.crackerButton.caption, true))
  {
  }
}
