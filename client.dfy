/**
 * The page as `static/script.js` manipulates it: one object whose fields
 * are the elements and the variable the handlers overwrite in place. Every
 * method is proved to leave the page as the matching function of
 * `Controller` (for the handlers) or `Layout` (for the containers) says.
 */
module Client {
  import opened Common
  import opened Text
  import opened Layout
  import opened Controller

  class Page {
    var input: JsString
    var charCount: JsString
    var addButton: Button
    var crackerButton: Button
    var message: Message
    var currentWishes: Option<seq<Wish>>
    var wishList: seq<Entry>
    var ornaments: seq<Ornament>
    var prediction: PredictionBox
    var wishCount: JsString

    /** Everything the handlers read and write, as one value. */
    function View(): PageView
      reads this
    {
      PageView(input, charCount, addButton, crackerButton, message, currentWishes,
               wishList, ornaments, prediction, wishCount)
    }

    ghost predicate Valid()
      reads this
    {
      Settled(View())
    }

    /** The page as the markup delivers it, before the first request: the
        field empty, the counter at 0, the panel hidden, no wishes yet. The
        captions of the two buttons and the initial total come from the
        markup. */
    constructor (addCaption: JsString, crackerCaption: JsString, total: JsString)
      ensures View() == PageView([], Lit("0"), Button(addCaption, true), Button(crackerCaption, true),
                                 Blank, Some([]), [], [], PredictionBox(false, [], []), total)
      ensures Valid()
    {
      input, charCount := [], Lit("0");
      addButton, crackerButton := Button(addCaption, true), Button(crackerCaption, true);
      message := Blank;
      currentWishes := Some([]);
      wishList, ornaments := [], [];
      prediction := PredictionBox(false, [], []);
      wishCount := total;
      assert DecimalText(0) == Lit("0");
    }

    /** `showMessage(text, kind)`: the new message replaces the old one. */
    method ShowMessage(text: JsString, kind: Kind)
      modifies this
      ensures View() == old(View()).(message := Shown(text, kind))
    {
      message := Shown(text, kind);
    }

    /** The `input` listener of the wish field. */
    method EditInput(value: JsString)
      requires Valid()
      modifies this
      ensures Valid()
      ensures View() == EditInputStep(old(View()), value)
    {
      input := value;
      charCount := DecimalText(|value|);
    }

    /** `updateWishesList(ws)`: empty the list, then append one entry per
        wish. */
    method UpdateWishesList(ws: seq<Wish>)
      modifies this
      ensures View() == old(View()).(wishList := Entries(ws))
    {
      wishList := [];
      for i := 0 to |ws|
        invariant wishList == Entries(ws[..i])
        invariant View() == old(View()).(wishList := wishList)
      {
        assert ws[..i + 1][..i] == ws[..i];
        wishList := wishList + [EntryFor(ws[i])];
      }
      assert ws[..|ws|] == ws;
    }

    /** `addBallToPosition(wish, positions[index], index)`. */
    method AddBallToPosition(w: Wish, index: nat)
      requires index < |Positions|
      modifies this
      ensures View() == old(View()).(ornaments := old(ornaments) + [PlacedBall(w, index)])
    {
      ornaments := ornaments + [PlacedBall(w, index)];
    }

    /** `updateTreeBalls(ws)`: empty the container, then place the first
        fourteen wishes in the fourteen slots. */
    method UpdateTreeBalls(ws: seq<Wish>)
      modifies this
      ensures View() == old(View()).(ornaments := Ornaments(ws))
    {
      ornaments := [];
      var shown := ws[..Min(|ws|, |Positions|)];
      for index := 0 to |shown|
        invariant ornaments == Balls(shown[..index])
        invariant View() == old(View()).(ornaments := ornaments)
      {
        assert shown[..index + 1][..index] == shown[..index];
        if index < |Positions| {
          AddBallToPosition(shown[index], index);
        }
      }
      assert shown[..|shown|] == shown;
    }

    /** `addNewBallToTree(wish)`: one more ornament, at a random point of
        the lower band. */
    method AddNewBallToTree(w: Wish)
      modifies this
      ensures View() == old(View()).(ornaments := old(ornaments) + [NewBall(w)])
    {
      ornaments := ornaments + [NewBall(w)];
    }

    /** `addWish`, given what its request would bring back. It returns the
        requests it sends: none when the check fails; on success the two
        reloads, whose replies arrive later as calls of `LoadWishes` and
        `LoadStats`. */
    method AddWish(f: Fetched) returns (sent: seq<Request>)
      requires Valid()
      modifies this
      ensures Valid()
      ensures Step(View(), sent) == AddWishStep(old(View()), f)
      ensures addButton == old(addButton)
    {
      AddWishRestoresButton(View(), f);
      var text := JsTrim(input);
      if text == [] {
        assert CheckWish(input) == Err(EnterTextMessage);
        ShowMessage(EnterTextMessage, Error);
        return [];
      }
      if |text| > MaxWishLength {
        assert CheckWish(input) == Err(TooLongMessage);
        ShowMessage(TooLongMessage, Error);
        return [];
      }
      assert CheckWish(input) == Ok(text);
      sent := SendWish(text, f);
    }

    /** The rest of `addWish` once the text has passed the check: disable
        the button, post the text, handle the outcome, restore the button. */
    method SendWish(text: JsString, f: Fetched) returns (sent: seq<Request>)
      requires Valid()
      modifies this
      ensures Valid()
      ensures Step(View(), sent) == SendWishStep(old(View()), text, f)
    {
      var original := addButton.caption;
      addButton := Button(AddBusyLabel, false);
      sent := [PostWish(text)];
      match f {
        case Threw =>
          ShowMessage(ConnectionMessage, Error);
        case Got(d) =>
          if d.success {
            input := [];
            charCount := Lit("0");
            match d.wish {
              case None =>
                ShowMessage(ConnectionMessage, Error);
              case Some(w) =>
                AddNewBallToTree(w);
                sent := sent + [GetRecentWishes(RecentLimit), GetStats];
                ShowMessage(OrElse(d.message, AddedMessage), Success);
            }
          } else {
            ShowMessage(OrElse(d.error, AddFailedMessage), Error);
          }
      }
      addButton := Button(original, true);
    }

    /** `loadWishes`, given what its request brought back. */
    method LoadWishes(f: Fetched)
      requires Valid()
      modifies this
      ensures Valid()
      ensures View() == LoadWishesStep(old(View()), f)
    {
      match f {
        case Threw =>
          ShowMessage(LoadWishesMessage, Error);
        case Got(d) =>
          if d.success {
            currentWishes := d.wishes;
            match d.wishes {
              case Some(ws) =>
                UpdateWishesList(ws);
                UpdateTreeBalls(ws);
              case None =>
                wishList := [];
                ShowMessage(LoadWishesMessage, Error);
            }
          }
      }
    }

    /** `loadStats`, given what its request brought back. */
    method LoadStats(f: Fetched)
      requires Valid()
      modifies this
      ensures Valid()
      ensures View() == LoadStatsStep(old(View()), f)
    {
      if f.Got? && f.data.success {
        wishCount := match f.data.totalWishes
          case Some(n) => DecimalText(n)
          case None => [];
      }
    }

    /** `getPrediction`, given what its request brought back. */
    method GetPrediction(f: Fetched)
      requires Valid()
      modifies this
      ensures Valid()
      ensures View() == GetPredictionStep(old(View()), f)
      ensures crackerButton == old(crackerButton)
    {
      var original := crackerButton.caption;
      crackerButton := Button(CrackerBusyLabel, false);
      match f {
        case Threw =>
          ShowMessage(PredictionMessage, Error);
        case Got(d) =>
          if d.success {
            match d.prediction {
              case Some(p) =>
                prediction := PredictionBox(true, p.text, GetColorCode(p.color));
              case None =>
                ShowMessage(PredictionMessage, Error);
            }
          }
      }
      crackerButton := Button(original, true);
    }

    /** The close button of the prediction panel. */
    method ClosePrediction()
      requires Valid()
      modifies this
      ensures Valid()
      ensures View() == ClosePredictionStep(old(View()))
    {
      prediction := prediction.(visible := false);
    }

    /** A notification timer firing. */
    method ExpireMessage()
      requires Valid()
      modifies this
      ensures Valid()
      ensures View() == ExpireMessageStep(old(View()))
    {
      message := Blank;
    }
  }
}
