/**
 * The decisions of the four request handlers of `static/script.js`
 * (`addWish`, `loadWishes`, `loadStats`, `getPrediction`) as functions from
 * the page as it was and the outcome of the request to the page as it is
 * afterwards. The network is not modelled: each handler receives the
 * outcome of its request (a parsed reply, or a thrown error) as an input,
 * and the handler runs to completion before the next event.
 *
 * `PageView` lists what the handlers read and write on the page; the class
 * `Client.Page` holds the same things as mutable fields and its methods are
 * proved to move them as the functions here say.
 */
module Controller {
  import opened Common
  import opened Text
  import opened Layout

  datatype Prediction = Prediction(text: JsString, color: JsString)

  /** The JSON body of a reply as the browser parses it. `success` is the
      discriminator; the other fields may be absent. */
  datatype Reply = Reply(
    success: bool,
    message: Option<JsString>,
    error: Option<JsString>,
    wish: Option<Wish>,
    wishes: Option<seq<Wish>>,
    totalWishes: Option<nat>,
    prediction: Option<Prediction>)

  /** The outcome of `await fetch(...)` and `await response.json()`: a
      thrown error (no connection, or a body that is not JSON) or a parsed
      reply, whatever its HTTP status. */
  datatype Fetched = Threw | Got(data: Reply)

  /** The requests the page sends to the server. */
  datatype Request = PostWish(text: JsString) | GetRecentWishes(limit: nat) | GetStats | GetRandomPrediction

  datatype Kind = Info | Success | Error

  /** The notification area: empty, or a text styled by its kind. */
  datatype Message = Blank | Shown(text: JsString, kind: Kind)

  datatype Button = Button(caption: JsString, enabled: bool)

  /** The prediction panel: whether it is shown, its text and the colour
      of its swatch. */
  datatype PredictionBox = PredictionBox(visible: bool, text: JsString, swatch: JsString)

  datatype PageView = PageView(
    input: JsString,                    // the wish text field
    charCount: JsString,                // the character counter under it
    addButton: Button,                  // the submit button
    crackerButton: Button,              // the prediction button
    message: Message,                   // the notification area
    currentWishes: Option<seq<Wish>>,   // `currentWishes`; None is `undefined`
    wishList: seq<Entry>,               // the children of the wish list
    ornaments: seq<Ornament>,           // the children of the ornament container
    prediction: PredictionBox,
    wishCount: JsString)                // the total shown in the header

  /** What a handler leaves behind: the page and the requests it sent. */
  datatype Step = Step(view: PageView, sent: seq<Request>)

  const MaxWishLength: nat := 200
  const RecentLimit: nat := 20

  const EnterTextMessage: JsString := Lit("Введите текст пожелания")
  const TooLongMessage: JsString := Lit("Пожелание слишком длинное (макс. 200 символов)")
  const AddedMessage: JsString := Lit("Шарик добавлен на ёлку!")
  const AddFailedMessage: JsString := Lit("Ошибка при добавлении")
  const ConnectionMessage: JsString := Lit("Ошибка соединения с сервером")
  const LoadWishesMessage: JsString := Lit("Не удалось загрузить пожелания")
  const PredictionMessage: JsString := Lit("Не удалось получить предсказание")
  const AddBusyLabel: JsString := Lit("<i class=\"fas fa-spinner fa-spin\"></i> Добавляем...")
  const CrackerBusyLabel: JsString := Lit("<i class=\"fas fa-spinner fa-spin\"></i> Тяну...")

  /** `field || fallback` for a string field of a reply: an absent field and
      an empty string are both falsy. */
  function OrElse(field: Option<JsString>, fallback: JsString): (s: JsString)
    ensures field.Some? && field.value != [] ==> s == field.value
    ensures field.None? || field.value == [] ==> s == fallback
  {
    if field.Some? && field.value != [] then field.value else fallback
  }

  // ---------------------------------------------------------------------
  // The check before a wish is sent

  /** The test `addWish` applies to the input before any request: the
      trimmed text must be non-empty and at most 200 units long; it is the
      trimmed text that is sent. */
  function CheckWish(value: JsString): (r: Result<JsString, JsString>)
    ensures r.Ok? <==> 0 < |JsTrim(value)| <= MaxWishLength
    ensures r.Ok? ==> r.value == JsTrim(value)
    ensures r.Err? ==> r.error in {EnterTextMessage, TooLongMessage}
  {
    var text := JsTrim(value);
    if text == [] then Err(EnterTextMessage)
    else if |text| > MaxWishLength then Err(TooLongMessage)
    else Ok(text)
  }

  /** An input of whitespace only is refused with the request to enter a
      text, whatever its length. */
  lemma CheckWishRefusesBlank(value: JsString)
    requires AllWhite(value, IsJsWhite)
    ensures CheckWish(value) == Err(EnterTextMessage)
  {
    TrimEmptyIffAllWhite(value, IsJsWhite);
  }

  /** A text padded with whitespace on both sides passes exactly when the
      text itself is non-empty and at most 200 units long (so 200 passes
      and 201 does not), and the padding is not sent. */
  lemma CheckWishOfPadded(p: JsString, m: JsString, q: JsString)
    requires AllWhite(p, IsJsWhite) && AllWhite(q, IsJsWhite)
    requires m == [] || (!IsJsWhite(m[0]) && !IsJsWhite(m[|m| - 1]))
    ensures CheckWish(p + m + q).Ok? <==> 0 < |m| <= MaxWishLength
    ensures CheckWish(p + m + q).Ok? ==> CheckWish(p + m + q).value == m
    ensures |m| > MaxWishLength ==> CheckWish(p + m + q) == Err(TooLongMessage)
  {
    TrimOfPadded(p, m, q, IsJsWhite);
  }

  /** Checking the text that was sent accepts it again unchanged. */
  lemma CheckWishIdempotent(value: JsString)
    requires CheckWish(value).Ok?
    ensures CheckWish(CheckWish(value).value) == CheckWish(value)
  {
    TrimIdempotent(value, IsJsWhite);
  }

  // ---------------------------------------------------------------------
  // The four handlers

  /** `addWish`. */
  function AddWishStep(v: PageView, f: Fetched): Step
  {
    match CheckWish(v.input)
    case Err(reason) => Step(v.(message := Shown(reason, Error)), [])
    case Ok(text) => SendWishStep(v, text, f)
  }

  /** The part of `addWish` after the check: the text is posted and the
      outcome handled; the button gets its caption back at the end. */
  function SendWishStep(v: PageView, text: JsString, f: Fetched): Step
  {
    var restored := Button(v.addButton.caption, true);
    match f
    case Threw =>
      Step(v.(message := Shown(ConnectionMessage, Error), addButton := restored), [PostWish(text)])
    case Got(d) =>
      if !d.success then
        Step(v.(message := Shown(OrElse(d.error, AddFailedMessage), Error), addButton := restored),
             [PostWish(text)])
      else
        var cleared := v.(input := [], charCount := Lit("0"), addButton := restored);
        match d.wish
        // addNewBallToTree(undefined) throws before the list is refreshed
        case None => Step(cleared.(message := Shown(ConnectionMessage, Error)), [PostWish(text)])
        case Some(w) =>
          Step(cleared.(ornaments := v.ornaments + [NewBall(w)],
                        message := Shown(OrElse(d.message, AddedMessage), Success)),
               [PostWish(text), GetRecentWishes(RecentLimit), GetStats])
  }

  /** `loadWishes`. */
  function LoadWishesStep(v: PageView, f: Fetched): PageView
  {
    match f
    case Threw => v.(message := Shown(LoadWishesMessage, Error))
    case Got(d) =>
      if !d.success then v
      else match d.wishes
        case Some(ws) => v.(currentWishes := Some(ws), wishList := Entries(ws), ornaments := Ornaments(ws))
        // updateWishesList(undefined) empties the list, then throws
        case None => v.(currentWishes := None, wishList := [], message := Shown(LoadWishesMessage, Error))
  }

  /** `loadStats`. */
  function LoadStatsStep(v: PageView, f: Fetched): PageView
  {
    match f
    case Threw => v
    case Got(d) =>
      if !d.success then v
      else match d.totalWishes
        case Some(n) => v.(wishCount := DecimalText(n))
        // `textContent = undefined` empties the element
        case None => v.(wishCount := [])
  }

  /** `getPrediction`. */
  function GetPredictionStep(v: PageView, f: Fetched): PageView
  {
    var restored := v.(crackerButton := Button(v.crackerButton.caption, true));
    match f
    case Threw => restored.(message := Shown(PredictionMessage, Error))
    case Got(d) =>
      if !d.success then restored
      else match d.prediction
        case Some(p) => restored.(prediction := PredictionBox(true, p.text, GetColorCode(p.color)))
        // `prediction.text` of undefined throws before the panel is touched
        case None => restored.(message := Shown(PredictionMessage, Error))
  }

  /** Typing into the wish field: the counter shows the new length. */
  function EditInputStep(v: PageView, value: JsString): PageView
  {
    v.(input := value, charCount := DecimalText(|value|))
  }

  /** The close button of the prediction panel. */
  function ClosePredictionStep(v: PageView): PageView
  {
    v.(prediction := v.prediction.(visible := false))
  }

  /** A notification timer firing, five seconds after some message was
      shown: it empties the notification area, whichever message it holds. */
  function ExpireMessageStep(v: PageView): PageView
  {
    v.(message := Blank)
  }

  // ---------------------------------------------------------------------
  // What the handlers promise

  /** The page between events: the counter shows the length of the input
      and both buttons are enabled. */
  predicate Settled(v: PageView)
  {
    v.charCount == DecimalText(|v.input|) && v.addButton.enabled && v.crackerButton.enabled
  }

  /** Every event leaves a settled page settled. */
  lemma StepsKeepSettled(v: PageView, f: Fetched, value: JsString)
    requires Settled(v)
    ensures Settled(AddWishStep(v, f).view)
    ensures Settled(LoadWishesStep(v, f)) && Settled(LoadStatsStep(v, f))
    ensures Settled(GetPredictionStep(v, f)) && Settled(EditInputStep(v, value))
    ensures Settled(ClosePredictionStep(v)) && Settled(ExpireMessageStep(v))
  {
    AddWishKeepsSettled(v, f);
    FetchesKeepSettled(v, f);
    EditsKeepSettled(v, value);
  }

  lemma AddWishKeepsSettled(v: PageView, f: Fetched)
    requires Settled(v)
    ensures Settled(AddWishStep(v, f).view)
  {
    assert DecimalText(0) == Lit("0");
    AddWishRestoresButton(v, f);
    match CheckWish(v.input)
    case Err(_) =>
    case Ok(text) => assert AddWishStep(v, f) == SendWishStep(v, text, f);
  }

  lemma FetchesKeepSettled(v: PageView, f: Fetched)
    requires Settled(v)
    ensures Settled(LoadWishesStep(v, f)) && Settled(LoadStatsStep(v, f)) && Settled(GetPredictionStep(v, f))
  {
  }

  lemma EditsKeepSettled(v: PageView, value: JsString)
    requires Settled(v)
    ensures Settled(EditInputStep(v, value)) && Settled(ClosePredictionStep(v)) && Settled(ExpireMessageStep(v))
  {
  }

  /** The gate: `addWish` sends a request exactly when the check passes.
      When it fails, the reason is shown as an error and nothing else on
      the page changes. */
  lemma AddWishGate(v: PageView, f: Fetched)
    ensures AddWishStep(v, f).sent != [] <==> CheckWish(v.input).Ok?
    ensures CheckWish(v.input).Ok? ==> AddWishStep(v, f).sent[0] == PostWish(JsTrim(v.input))
    ensures CheckWish(v.input).Err? ==>
      AddWishStep(v, f).view == v.(message := Shown(CheckWish(v.input).error, Error))
  {
    match CheckWish(v.input)
    case Err(_) =>
    case Ok(text) => assert AddWishStep(v, f) == SendWishStep(v, text, f);
  }

  /** In every outcome the submit button gets its label back and is
      enabled again; on a settled page that is the button as it was. */
  lemma AddWishRestoresButton(v: PageView, f: Fetched)
    ensures AddWishStep(v, f).view.addButton.caption == v.addButton.caption
    ensures AddWishStep(v, f).sent != [] ==> AddWishStep(v, f).view.addButton.enabled
    ensures Settled(v) ==> AddWishStep(v, f).view.addButton == v.addButton
  {
    match CheckWish(v.input)
    case Err(_) =>
    case Ok(text) => assert AddWishStep(v, f) == SendWishStep(v, text, f);
  }

  /** A wish the server accepted: the field and its counter are reset, one
      ornament is added for the wish, the server's message (or the default)
      is shown as a success, and the list and the total are fetched again.
      The wish list itself waits for that fetch. */
  lemma AddWishAccepted(v: PageView, d: Reply, w: Wish)
    requires CheckWish(v.input).Ok? && d.success && d.wish == Some(w)
    ensures var s := AddWishStep(v, Got(d));
      && s.view.input == [] && s.view.charCount == Lit("0")
      && s.view.ornaments == v.ornaments + [NewBall(w)]
      && s.view.message == Shown(OrElse(d.message, AddedMessage), Success)
      && s.sent == [PostWish(JsTrim(v.input)), GetRecentWishes(RecentLimit), GetStats]
      && s.view.currentWishes == v.currentWishes && s.view.wishList == v.wishList
      && s.view.wishCount == v.wishCount && s.view.crackerButton == v.crackerButton
  {
    match CheckWish(v.input)
    case Err(_) =>
    case Ok(text) => assert AddWishStep(v, Got(d)) == SendWishStep(v, text, Got(d));
  }

  /** A wish the server refused, or a request that failed: an error is
      shown (the server's text when it sent one) and the input, the wishes
      and the tree stay as they were. */
  lemma AddWishRefused(v: PageView, f: Fetched)
    requires CheckWish(v.input).Ok? && (f.Threw? || !f.data.success)
    ensures var s := AddWishStep(v, f);
      && s.view.message == Shown(if f.Threw? then ConnectionMessage else OrElse(f.data.error, AddFailedMessage), Error)
      && s.view.input == v.input && s.view.charCount == v.charCount
      && s.view.currentWishes == v.currentWishes && s.view.wishList == v.wishList
      && s.view.ornaments == v.ornaments
      && s.view.wishCount == v.wishCount && s.view.crackerButton == v.crackerButton
      && s.sent == [PostWish(JsTrim(v.input))]
  {
    match CheckWish(v.input)
    case Err(_) =>
    case Ok(text) => assert AddWishStep(v, f) == SendWishStep(v, text, f);
  }

  /** `loadWishes` replaces the wishes, the list and the tree only on
      success, and then with the rendering of exactly the received wishes;
      a thrown error changes only the message; `success: false` changes
      nothing at all, not even the message. */
  lemma LoadWishesOutcomes(v: PageView, f: Fetched)
    ensures f.Got? && !f.data.success ==> LoadWishesStep(v, f) == v
    ensures f.Threw? ==> LoadWishesStep(v, f) == v.(message := Shown(LoadWishesMessage, Error))
    ensures f.Got? && f.data.success && f.data.wishes.Some? ==>
      var ws := f.data.wishes.value;
      LoadWishesStep(v, f) == v.(currentWishes := Some(ws), wishList := Entries(ws), ornaments := Ornaments(ws))
    ensures LoadWishesStep(v, f).currentWishes != v.currentWishes ==> f.Got? && f.data.success
    ensures LoadWishesStep(v, f).message != v.message ==> LoadWishesStep(v, f).message == Shown(LoadWishesMessage, Error)
  {
  }

  /** `loadStats` never shows a message and changes nothing but the total,
      and that only on success. */
  lemma LoadStatsOutcomes(v: PageView, f: Fetched)
    ensures LoadStatsStep(v, f) == v.(wishCount := LoadStatsStep(v, f).wishCount)
    ensures LoadStatsStep(v, f).wishCount != v.wishCount ==> f.Got? && f.data.success
    ensures f.Got? && f.data.success && f.data.totalWishes.Some? ==>
      DecimalValue(LoadStatsStep(v, f).wishCount) == f.data.totalWishes.value
  {
    if f.Got? && f.data.success && f.data.totalWishes.Some? {
      DecimalTextRoundTrip(f.data.totalWishes.value);
    }
  }

  /** `getPrediction` shows the panel, with the prediction's text and the
      code of its colour, only on success; only a failed request (or a
      reply without a prediction) shows a message; the button is restored
      in every outcome; nothing else changes. */
  lemma GetPredictionOutcomes(v: PageView, f: Fetched)
    ensures var r := GetPredictionStep(v, f);
      && r.crackerButton == Button(v.crackerButton.caption, true)
      && r.input == v.input && r.currentWishes == v.currentWishes && r.wishList == v.wishList
      && r.ornaments == v.ornaments && r.addButton == v.addButton && r.wishCount == v.wishCount
    ensures f.Got? && f.data.success && f.data.prediction.Some? ==>
      var p := f.data.prediction.value;
      GetPredictionStep(v, f).prediction == PredictionBox(true, p.text, GetColorCode(p.color))
      && GetPredictionStep(v, f).message == v.message
    ensures GetPredictionStep(v, f).prediction != v.prediction ==> f.Got? && f.data.success
    ensures f.Got? && !f.data.success ==> GetPredictionStep(v, f) == v.(crackerButton := Button(v.crackerButton.caption, true))
    ensures f.Threw? ==> GetPredictionStep(v, f).message == Shown(PredictionMessage, Error)
  {
  }

  /** Only the prediction button and the close button touch the panel:
      every other event leaves it exactly as it was. */
  lemma PanelUntouched(v: PageView, f: Fetched, value: JsString)
    ensures AddWishStep(v, f).view.prediction == v.prediction
    ensures LoadWishesStep(v, f).prediction == v.prediction && LoadStatsStep(v, f).prediction == v.prediction
    ensures EditInputStep(v, value).prediction == v.prediction && ExpireMessageStep(v).prediction == v.prediction
  {
    AddWishKeepsPanel(v, f);
  }

  lemma AddWishKeepsPanel(v: PageView, f: Fetched)
    ensures AddWishStep(v, f).view.prediction == v.prediction
  {
    match CheckWish(v.input)
    case Err(_) =>
    case Ok(text) => assert AddWishStep(v, f) == SendWishStep(v, text, f);
  }

  /** Once shown, the panel stays visible through every later event except
      the close button: no timer and no other handler hides it, and a new
      prediction replaces it in place. */
  lemma PredictionStaysVisible(v: PageView, f: Fetched, value: JsString)
    requires v.prediction.visible
    ensures AddWishStep(v, f).view.prediction.visible && LoadWishesStep(v, f).prediction.visible
    ensures LoadStatsStep(v, f).prediction.visible && GetPredictionStep(v, f).prediction.visible
    ensures EditInputStep(v, value).prediction.visible && ExpireMessageStep(v).prediction.visible
  {
    PanelUntouched(v, f, value);
  }
}
