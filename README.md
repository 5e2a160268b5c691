# Wish tree

A model of the New Year wish tree: a Flask server (`app.py`) that stores wishes and draws
predictions, and the browser script (`static/script.js`) that sends wishes, renders the recent
ones as a list and as ornaments on a tree, shows the total and pulls a prediction from a
cracker.

The model has six modules, plus `Common`, which holds the `Option` and `Result` values they share:

- `Text`: the two kinds of string. A browser string is a sequence of UTF-16 code units
  (`JsString`), so `.length`, `substring` and `trim` are exact. A server string is a sequence of
  code points (`string`). `Utf16` and `DecodeUtf16` convert between them and are proved to be
  inverses. `JsTrim` and `PyStrip` trim different whitespace sets and share a generic `Trim`,
  which is characterised by what it removes. `DecimalText` is how a count is shown.
- `Layout`: what the browser renders for a sequence of wishes. It covers the colour codes, HTML
  escaping, the list entries, the fourteen ornament slots and the tooltip.
- `Controller`: the four request handlers (`addWish`, `loadWishes`, `loadStats`,
  `getPrediction`) and the small listeners, as pure step functions on a `PageView`. The
  outcome of each request is an input: a parsed reply, or a thrown error.
- `Client`: the page as a class, `Client.Page`. Its fields are what the handlers overwrite in
  place. Each method is proved to leave the page exactly as the matching step function says.
  `UpdateWishesList` and `UpdateTreeBalls` keep the source's loops, with invariants.
- `Server`: the handlers `add_wish`, `get_random_prediction`, `get_recent_wishes` and
  `get_stats`, as functions from the request and what storage answers to a status and a JSON
  body.
- `Exchange`: the two ends together. A reply reaches the page re-encoded as UTF-16, and a posted
  text reaches the server decoded.

Among the properties proved:

- A wish the browser accepts, that is not blank to Python, and that storage saves (stripped of
  Python's whitespace) ends up as one new ornament on the tree.
- The browser counts UTF-16 units and the server counts code points. So 101 to 200 characters
  above the Basic Multilingual Plane pass the server's limit but are refused by the browser.
- The two whitespace sets differ. A text of U+001C passes the browser's check but is refused
  as empty by the server, and the page then shows the server's error.

## Model

| member | source | states |
|---|---|---|
| Text.Utf16 | static/script.js:98 | the units of a text are at least as many as its code points, and only the empty text encodes to nothing |
| Text.DecodeUtf16OfUtf16 | static/script.js:98 | a text survives the trip from the server to the browser and back: decoding its encoding gives it again |
| Text.Utf16OfDecodeUtf16 | app.py:32 | a browser string without unpaired surrogates is the encoding of what the server decodes it to |
| Text.Utf16LengthExact | static/script.js:81 | JavaScript's `.length` equals Python's `len` exactly when no character lies above the Basic Multilingual Plane |
| Text.Trim | static/script.js:73 | the trimmed text is the slice of the input between its first and last non-white elements; everything removed is white |
| Text.TrimOfPadded | static/script.js:73 | white padding around a text with non-white ends is removed, and exactly that padding |
| Text.TrimEmptyIffAllWhite | static/script.js:76 | a text trims to nothing exactly when all of it is white |
| Text.TrimIdempotent | app.py:33 | trimming a trimmed text changes nothing |
| Text.DecimalText | static/script.js:27 | a count is shown as at least one decimal digit, with a leading zero only for zero |
| Text.DecimalTextRoundTrip | static/script.js:64 | reading the shown digits back gives the count that was written |
| Layout.GetColorCode | static/script.js:355-365 | the six palette names get their table code, and every other name gets white |
| Layout.PaletteCodesDistinct | static/script.js:356-363 | the six palette colours of the server (database.py:86) get six different codes, none of them white |
| Layout.GetColorCodeAsWritten | static/script.js:364 | the lookup as written yields an inherited `Object.prototype` member, not a code, exactly for the prototype's property names |
| Layout.ToStringColorIsNotACode | static/script.js:364 | for the colour name "toString" the lookup as written yields a function, while the corrected lookup yields white |
| Layout.AsWrittenAgreesOffPrototype | static/script.js:355-365 | on every name that is not an `Object.prototype` property, the lookup as written and the corrected one agree |
| Layout.EscapeHtml | static/script.js:375-379 | escaped text holds no `<` or `>`, so a wish's text cannot open or close a tag |
| Layout.UnescapeEscapeHtmlNormalises | static/script.js:177-178 | for every text, the browser reads the escaped text back as the text with a carriage return (alone or before a line feed) turned into one line feed and U+0000 dropped, and nothing else changed |
| Layout.ParseNewlines | static/script.js:177-178 | after the parser's control-character rules no carriage return or U+0000 is left, and the text does not grow |
| Layout.ParseNewlinesOfVerbatim | static/script.js:177-178 | a text without carriage returns or U+0000 is left unchanged by those rules |
| Layout.UnescapeEscapeHtml | static/script.js:375-379 | escaping loses nothing: for a text without carriage returns or U+0000, the browser reads back exactly the wish's text |
| Layout.EscapedControlsAreNormalised | static/script.js:177-178 | read back through `innerHTML`, a carriage return (alone or before a line feed) becomes one line feed and U+0000 disappears |
| Layout.Entries | static/script.js:170-188 | the list has one entry per wish |
| Layout.EntriesAt | static/script.js:174-188 | entry i shows wish i, in the order received, with its escaped text, colour name, marker colour and time |
| Layout.EntriesOfPrefix | static/script.js:174-188 | rendering a prefix of the wishes gives the same prefix of the entries |
| Layout.PositionsDistinct | static/script.js:197-212 | there are fourteen slots and no two coincide |
| Layout.BallClass | static/script.js:226 | an ornament's colour class starts with `ball-` and the rest of it is the wish's colour name |
| Layout.Tooltip | static/script.js:233 | a tooltip is at most 50 units long; a text of up to 50 units is kept whole, a longer one becomes its first 47 units and "..." |
| Layout.TooltipIsPrefixed | static/script.js:233 | a tooltip starts with the beginning of the text, and a tooltip is its own tooltip |
| Layout.Balls | static/script.js:214-218 | at most fourteen wishes give one ornament each |
| Layout.Ornaments | static/script.js:214-218 | the tree shows as many ornaments as there are wishes, but never more than fourteen |
| Layout.OrnamentsAt | static/script.js:214-233 | ornament i belongs to wish i: it sits in slot i, is turned by i * 25 degrees, and has the wish's colour class and tooltip |
| Layout.OrnamentsInDistinctSlots | static/script.js:197-218 | no two ornaments of a rendering share a slot |
| Controller.OrElse | static/script.js:116 | `field \|\| fallback` on a reply string: an absent field and an empty string both give the fallback |
| Controller.CheckWish | static/script.js:73-84 | the input passes exactly when its trimmed text is non-empty and at most 200 units long; the trimmed text is what is sent, and a refusal carries one of the two messages |
| Controller.CheckWishRefusesBlank | static/script.js:73-78 | an input of whitespace only is refused with the request to enter a text, whatever its length |
| Controller.CheckWishOfPadded | static/script.js:73-84 | a padded text passes exactly when the text itself is 1 to 200 units long (200 passes, 201 does not), and the padding is not sent |
| Controller.CheckWishIdempotent | static/script.js:73 | checking the text that was sent accepts it again unchanged |
| Controller.StepsKeepSettled | static/script.js:87-166 | after every event the counter shows the input's length and both buttons are enabled again |
| Controller.AddWishGate | static/script.js:72-99 | `addWish` posts the trimmed text exactly when the check passes; otherwise it only shows the reason as an error |
| Controller.AddWishRestoresButton | static/script.js:86-130 | in every outcome the submit button gets its caption back, and it is enabled again once a request was sent |
| Controller.AddWishAccepted | static/script.js:103-119 | on success the field and counter are reset, one ornament is added, the server's message (or the default) is shown, and the list and total are fetched again; the total and the prediction button are untouched |
| Controller.AddWishRefused | static/script.js:120-125 | on refusal or a failed request an error is shown (the server's text when there is one), and the input, wishes, tree, total and prediction button stay as they were |
| Controller.LoadWishesOutcomes | static/script.js:41-55 | only a successful reply replaces the wishes, the list and the tree, with a rendering of exactly the received wishes; an error changes only the message; `success: false` changes nothing |
| Controller.LoadStatsOutcomes | static/script.js:58-69 | only the total changes, only on success, and it then reads back as the server's count |
| Controller.GetPredictionOutcomes | static/script.js:134-167 | the panel is shown with the prediction's text and colour code only on success; the button is restored in every outcome; only a failure shows a message |
| Controller.PanelUntouched | static/script.js:145-155 | no event except the prediction and close buttons touches the prediction panel |
| Controller.PredictionStaysVisible | static/script.js:155 | once shown, the panel stays visible through every event except the close button |
| Client.Page.constructor | static/script.js:5 | the page starts with an empty field, a counter of 0, enabled buttons, no message, no wishes and the panel hidden |
| Client.Page.ShowMessage | static/script.js:293-296 | the new message replaces the old one and nothing else changes |
| Client.Page.EditInput | static/script.js:26-28 | the counter shows the new length of the input, so a settled page stays settled |
| Client.Page.UpdateWishesList | static/script.js:170-188 | the list is emptied, then holds exactly the entries for the wishes; nothing else changes |
| Client.Page.AddBallToPosition | static/script.js:222-238 | one ornament, for the wish in slot `index`, is appended |
| Client.Page.UpdateTreeBalls | static/script.js:192-219 | the tree is emptied, then holds exactly the ornaments for the first fourteen wishes |
| Client.Page.AddNewBallToTree | static/script.js:247-262 | one ornament with the wish's full text and a heart is appended in the lower band |
| Client.Page.AddWish | static/script.js:72-85 | the page and the requests sent are as `Controller.AddWishStep` says; a settled page stays settled and the submit button ends as it was |
| Client.Page.SendWish | static/script.js:86-130 | after the check, the page and the requests sent are as `Controller.SendWishStep` says; a settled page stays settled |
| Client.Page.LoadWishes | static/script.js:41-55 | the page is as `Controller.LoadWishesStep` says; a settled page stays settled |
| Client.Page.LoadStats | static/script.js:58-69 | the page is as `Controller.LoadStatsStep` says; a settled page stays settled |
| Client.Page.GetPrediction | static/script.js:134-167 | the page is as `Controller.GetPredictionStep` says; a settled page stays settled and the prediction button ends as it was |
| Client.Page.ClosePrediction | static/script.js:32-34 | the panel is hidden and nothing else changes, so a settled page stays settled |
| Client.Page.ExpireMessage | static/script.js:298-302 | the notification area is emptied and nothing else changes, so a settled page stays settled |
| Server.SubmittedText | app.py:33 | a missing text gives the empty string, a string gives its stripped form, and any other JSON value gives nothing, because `.strip()` raises |
| Server.AddWish | app.py:30-59 | the status is 200, 400 or 500; success holds exactly at 200, with the stored wish and the fixed message; a failure carries only an error; a `text` that is not a string gives 500 |
| Server.AddWishOfNonString | app.py:33-59 | a `text` of null, a number, a boolean, a list or an object makes `.strip()` raise, and the reply is 500 with Python's attribute error (for null: `'NoneType' object has no attribute 'strip'`) |
| Server.AddWishTooLongExactly | app.py:41-45 | the too-long refusal is given exactly for a stripped text of more than 200 code points |
| Server.AddWishRefusesExactly | app.py:35-45 | 400 is answered exactly when the stripped text is empty or longer than 200 code points, with the matching error |
| Server.AddWishRefusesBlank | app.py:33-39 | a missing text and a whitespace-only text are refused as empty |
| Server.AddWishStoresStripped | app.py:47-53 | once validation passes, storage gets the stripped text; the reply is 200 with the stored wish, or 500 with the exception's text |
| Server.AddWishSeesStripped | app.py:33 | two texts with the same stripped form get the same reply |
| Server.AddWishOfStripped | app.py:35-45 | a stripped text is refused exactly when it is empty or longer than 200 code points |
| Server.AddWishOfPadded | app.py:33-45 | a padded text is judged, and stored, as the text between the padding |
| Server.StripOfPaddedOuter | app.py:33 | `.strip()` removes exactly the whitespace padding around a text with non-blank ends |
| Server.StripOfBare | app.py:33 | `.strip()` leaves a text with non-blank ends as it is |
| Server.AddWishStripIdempotent | app.py:33 | submitting the stored text again gets the same reply |
| Server.GetRandomPrediction | app.py:18-25 | 200 with the prediction when there is one, otherwise 404 with "No predictions found" |
| Server.EffectiveLimit | app.py:65 | a given integer limit is used; a missing or unconvertible one gives 20 |
| Server.GetRecentWishes | app.py:64-72 | 200 with the wishes storage returns for the effective limit, and `count` equal to their number |
| Server.GetStats | app.py:77-82 | 200 with the visible-wish count as `total_wishes` |
| Exchange.ToClientText | static/script.js:101 | a reply string reaches the browser as a string that decodes back to it; only the empty string arrives empty |
| Exchange.ToClientWish | static/script.js:44 | a stored wish reaches the browser with text, colour and time that decode back to the stored ones |
| Exchange.ToClientWishes | static/script.js:44 | the browser receives as many wishes as were sent, each text intact |
| Exchange.Deliver | static/script.js:101 | every reply, whatever its status, is parsed; success, error, message and total arrive as sent, and the wish, the wishes and the prediction arrive with each text and colour as the same characters in UTF-16 |
| Exchange.WishColorsHaveCodes | static/script.js:355-364 | each of the six colours the server draws from (database.py:86) reaches the browser as the table's name and gets its own code, never the white fallback |
| Exchange.AnswerPost | static/script.js:93-101 | a posted text without unpaired surrogates gets a parsed reply, and it is a success exactly when the server answers 200 |
| Exchange.ClientLimitWithinServer | app.py:41-45 | no text the browser lets through is refused by the server as too long, whatever its whitespace |
| Exchange.ServerKeepsClientLimit | app.py:41-45 | a text the browser lets through, with no Python-only whitespace at its ends, is never refused by the server |
| Exchange.AcceptedWishReachesTree | static/script.js:93-116 | a wish that passes the check, is not blank to Python and is saved in stripped form adds one ornament for the stored wish, shows the server's message, clears the field and triggers both reloads |
| Exchange.StoredReply | app.py:49-53 | the browser reads the stored wish and the server's message from a 200 reply |
| Exchange.ClientStricterThanServer | static/script.js:81-84 | 101 to 200 characters above the Basic Multilingual Plane are not refused by the server, but the browser refuses them as too long |
| Exchange.ServerTakesAstral | app.py:41 | the server does not refuse up to 200 characters above the Basic Multilingual Plane |
| Exchange.AstralTextIsTrimmed | static/script.js:73 | such a text is not changed by `trim` and takes two units per character |
| Exchange.ClientStricterOnTrees | static/script.js:81 | 101 Christmas-tree emoji (U+1F384) are one such text |
| Exchange.ServerRefusesPythonBlank | app.py:33-39 | every text that passes the browser's check but is whitespace to Python is posted and refused as empty, and the page keeps the input and shows the server's error |
| Exchange.ServerRefusesWhatClientSends | app.py:33-39 | U+001C is such a text: the browser posts it as a wish, the server refuses it as empty, and the page keeps the input and shows the server's error |
| Exchange.ClientSendsSeparator | static/script.js:73-76 | U+001C is not whitespace to `trim` |
| Exchange.RefusedReply | static/script.js:121 | the browser shows the server's error text from a refusal |
| Exchange.RecentWishesReachPage | static/script.js:43-49 | the 20 wishes the page asks for are shown as the server sent them, with at most fourteen on the tree |
| Exchange.TotalReachesPage | static/script.js:60-64 | the header shows the server's total, digit for digit |
| Exchange.PredictionReachesPage | static/script.js:142-159 | a drawn prediction is shown with its text and colour code; with none, the 404 shows nothing and only the button is restored |

## Left out

- The network and asynchrony: a request and its reply are one step, so interleaved handlers (a second Ctrl+Enter while a post is pending, replies arriving out of order) are not modelled.
- The 30-second `setInterval` of `loadStats`, and the page-load calls of `loadWishes` and `loadStats`: each is just another call of the modelled handler.
- Timers: the 5-second expiry of a message is the event `ExpireMessage`, whichever message it finds. The 500 ms removal of `new-ball`, the 10 ms growth animation and the 2-second "New!" badge are not modelled.
- Randomness and floating point: the snowflakes, the random point of a new ornament (only "the lower band" is kept), the animation delay of `index * 0.1` seconds, and the server's random colour and random prediction (both inputs).
- `formatTime`: a wish's creation time is kept as the raw timestamp, because locale formatting is not modelled.
- `playSound` and `console` logging: they have no effect on the page.
- `escapeHtml` is modelled by the HTML serialisation rule it relies on, not by the DOM element it uses.
- `database.py`: storage is a function parameter. It saves a wish or raises, returns the recent wishes for a limit, draws a prediction or none, and gives the count.
- Flask plumbing: routing, CORS, static files and `request.get_json()`. The request body is taken to be a JSON object; a missing or non-object body (which makes `data.get` raise) is not modelled.
- Server.EffectiveLimit: Python's `int()` conversion of the query argument is taken as given (limit or no limit). Its parsing rules are not modelled.
- Exchange.AnswerPost: a posted text with an unpaired surrogate has no Python string in this model, so it gets no answer here.
- Text.DecimalText: counts of 10^21 and above, which JavaScript shows in exponent notation, are shown as plain digits.
- Layout.BallClass: only the colour class is kept; the constant `ball` class and the transient `new-ball` class are not.
- `get_random_prediction`, `get_recent_wishes` and `get_stats` have no `try`: an exception from storage there becomes Flask's own HTML 500 page, which the client's `response.json()` fails on (the `Threw` outcome); `Exchange.Deliver` never produces such a reply, because the model's storage for those three handlers cannot raise.
- Layout.EntriesAt: the list marker's colour is computed with the corrected lookup `Layout.GetColorCode`, not the lookup as written (see Findings). The two agree on every name except the twelve `Object.prototype` names outside the table, which neither the server's palette nor its seeded predictions produce. The colour name itself goes into the markup unescaped; it is kept as a plain value, so markup inside a colour name is not modelled.
- Controller.GetPredictionOutcomes: the prediction swatch is likewise computed with the corrected lookup, and agrees with the code as written off the twelve `Object.prototype` names.
- Markup beyond what the handlers set: the icons' HTML and the styles.

## Findings

| source | as written | input that shows it | evidently intended | confidence | as-written member | corrected member |
|---|---|---|---|---|---|---|
| static/script.js:364 | `colors[colorName] \|\| '#ffffff'` also finds members inherited from `Object.prototype` | a colour name "toString" gives the function `Object.prototype.toString`, which is truthy, so no white fallback | every name outside the table gives white | not executed | Layout.GetColorCodeAsWritten, Layout.ToStringColorIsNotACode | Layout.GetColorCode |
