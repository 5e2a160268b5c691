/**
 * The rendering rules of `static/script.js` as values: what the wish list
 * and the tree show for a sequence of wishes. The `Page` class builds its
 * containers element by element; the functions here are what it must end
 * up with.
 */
module Layout {
  import opened Common
  import opened Text

  /** A wish as the browser receives it from the server. */
  datatype Wish = Wish(text: JsString, color: JsString, createdAt: JsString)

  // ---------------------------------------------------------------------
  // Colour codes

  const White: JsString := Lit("#ffffff")

  /** The six colour names the server draws a wish's colour from
      (`database.py`, line 86), in the order of the client's table. */
  const PaletteNames: seq<JsString> :=
    [Lit("red"), Lit("blue"), Lit("gold"), Lit("silver"), Lit("green"), Lit("purple")]

  /** The client's colour table, looked up among its own entries only. */
  function OwnColorCode(name: JsString): Option<JsString>
  {
    if name == Lit("red") then Some(Lit("#ff3333"))
    else if name == Lit("blue") then Some(Lit("#3399ff"))
    else if name == Lit("gold") then Some(Lit("#ffcc00"))
    else if name == Lit("silver") then Some(Lit("#cccccc"))
    else if name == Lit("green") then Some(Lit("#33cc33"))
    else if name == Lit("purple") then Some(Lit("#cc33ff"))
    else None
  }

  /** The display colour for a colour name: the table's code for the six
      palette names and white for every other name. */
  function GetColorCode(name: JsString): (code: JsString)
    ensures OwnColorCode(name).Some? ==> code == OwnColorCode(name).value
    ensures OwnColorCode(name).None? ==> code == White
  {
    match OwnColorCode(name)
    case Some(c) => c
    case None => White
  }

  /** Every palette colour has its own code, none of them white, so the
      six colours of the server stay distinguishable on the page. */
  lemma PaletteCodesDistinct()
    ensures forall i :: 0 <= i < |PaletteNames| ==> GetColorCode(PaletteNames[i]) != White
    ensures forall i, j :: 0 <= i < j < |PaletteNames| ==>
      GetColorCode(PaletteNames[i]) != GetColorCode(PaletteNames[j])
  {
    var codes := PaletteLookup();
    forall i | 0 <= i < |PaletteNames| ensures GetColorCode(PaletteNames[i]) != White {
      assert codes[i][1] != White[1] || codes[i][3] != White[3];
    }
    forall i, j | 0 <= i < j < |PaletteNames|
      ensures GetColorCode(PaletteNames[i]) != GetColorCode(PaletteNames[j])
    {
      assert codes[i][1] != codes[j][1] || codes[i][3] != codes[j][3];
    }
  }

  /** The codes of the six palette names, in order. */
  lemma PaletteLookup() returns (codes: seq<JsString>)
    ensures |codes| == |PaletteNames|
    ensures forall i :: 0 <= i < |PaletteNames| ==> GetColorCode(PaletteNames[i]) == codes[i]
    ensures codes == [Lit("#ff3333"), Lit("#3399ff"), Lit("#ffcc00"), Lit("#cccccc"), Lit("#33cc33"), Lit("#cc33ff")]
  {
    // Names of equal length differ in their first letter.
    assert Lit("blue")[0] != Lit("gold")[0];
    assert Lit("silver")[0] != Lit("purple")[0];
    codes := [Lit("#ff3333"), Lit("#3399ff"), Lit("#ffcc00"), Lit("#cccccc"), Lit("#33cc33"), Lit("#cc33ff")];
  }

  /** What `colors[colorName]` yields in JavaScript: an own entry of the
      table, or, for a name that is a property of `Object.prototype`, the
      inherited member (a function or an object, both truthy). */
  datatype ColorLookup = Code(code: JsString) | Inherited(member: JsString)

  /** The property names every plain object inherits from
      `Object.prototype` in a browser. */
  const ObjectPrototypeNames: seq<JsString> :=
    [Lit("constructor"), Lit("hasOwnProperty"), Lit("isPrototypeOf"),
     Lit("propertyIsEnumerable"), Lit("toLocaleString"), Lit("toString"),
     Lit("valueOf"), Lit("__proto__"), Lit("__defineGetter__"),
     Lit("__defineSetter__"), Lit("__lookupGetter__"), Lit("__lookupSetter__")]

  /** `getColorCode` as written: `colors[colorName] || '#ffffff'` also
      finds inherited members, and those are truthy, so the fallback to
      white is skipped for them. */
  function GetColorCodeAsWritten(name: JsString): (v: ColorLookup)
    ensures OwnColorCode(name).Some? ==> v == Code(OwnColorCode(name).value)
    ensures v.Inherited? <==> OwnColorCode(name).None? && name in ObjectPrototypeNames
  {
    match OwnColorCode(name)
    case Some(c) => Code(c)
    case None => if name in ObjectPrototypeNames then Inherited(name) else Code(White)
  }

  /** The colour name "toString" shows the discrepancy: as written the
      lookup returns `Object.prototype.toString` instead of a colour code,
      while the corrected lookup returns white. */
  lemma ToStringColorIsNotACode()
    ensures GetColorCodeAsWritten(Lit("toString")) == Inherited(Lit("toString"))
    ensures GetColorCode(Lit("toString")) == White
  {
    assert Lit("toString") == ObjectPrototypeNames[5];
  }

  /** The two lookups agree on every name that is not inherited from
      `Object.prototype`, in particular on all six palette colours. */
  lemma AsWrittenAgreesOffPrototype(name: JsString)
    requires name !in ObjectPrototypeNames
    ensures GetColorCodeAsWritten(name) == Code(GetColorCode(name))
  {
  }

  // ---------------------------------------------------------------------
  // Escaping text for markup

  const Amp: JsString := Lit("&amp;")
  const Nbsp: JsString := Lit("&nbsp;")
  const Lt: JsString := Lit("&lt;")
  const Gt: JsString := Lit("&gt;")

  /** The replacement of one unit in the "escaping a string" step of the
      HTML Living Standard (section 13.3, serializing HTML fragments), in
      text-node mode. */
  function EscapeUnit(u: CodeUnit): (r: JsString)
    ensures |r| >= 1
    ensures forall i :: 0 <= i < |r| ==> r[i] != '<' as CodeUnit && r[i] != '>' as CodeUnit && r[i] != 0xA0
  {
    if u == '&' as CodeUnit then Amp
    else if u == 0xA0 then Nbsp
    else if u == '<' as CodeUnit then Lt
    else if u == '>' as CodeUnit then Gt
    else [u]
  }

  /** `escapeHtml`: the text as it appears inside an element's markup.
      The result holds no `<` or `>`, so it cannot open or close a tag. */
  function EscapeHtml(s: JsString): (r: JsString)
    ensures forall i :: 0 <= i < |r| ==> r[i] != '<' as CodeUnit && r[i] != '>' as CodeUnit
    decreases |s|
  {
    if s == [] then [] else EscapeUnit(s[0]) + EscapeHtml(s[1..])
  }

  /** How a browser's HTML parser reads escaped text back as element
      content: a carriage return (alone or before a line feed) becomes a
      line feed and U+0000 is dropped (sections 13.2.3.5 and 13.2.6.4.7 of
      the HTML Living Standard), and the four character references become
      their characters. */
  function UnescapeHtml(s: JsString): JsString
    decreases |s|
  {
    if s == [] then []
    else if s[0] == 0x0D then
      [0x0A] + (if |s| >= 2 && s[1] == 0x0A then UnescapeHtml(s[2..]) else UnescapeHtml(s[1..]))
    else if s[0] == 0 then UnescapeHtml(s[1..])
    else if |s| >= |Amp| && s[..|Amp|] == Amp then ['&' as CodeUnit] + UnescapeHtml(s[|Amp|..])
    else if |s| >= |Nbsp| && s[..|Nbsp|] == Nbsp then [0xA0] + UnescapeHtml(s[|Nbsp|..])
    else if |s| >= |Lt| && s[..|Lt|] == Lt then ['<' as CodeUnit] + UnescapeHtml(s[|Lt|..])
    else if |s| >= |Gt| && s[..|Gt|] == Gt then ['>' as CodeUnit] + UnescapeHtml(s[|Gt|..])
    else [s[0]] + UnescapeHtml(s[1..])
  }

  lemma UnescapeEscapedUnit(u: CodeUnit, rest: JsString)
    requires u != 0x0D && u != 0
    ensures UnescapeHtml(EscapeUnit(u) + rest) == [u] + UnescapeHtml(rest)
  {
    var s := EscapeUnit(u) + rest;
    // Every reference starts with '&' and is told apart by its second unit.
    assert Amp[0] == Nbsp[0] == Lt[0] == Gt[0] == '&' as CodeUnit;
    assert Amp[1] == 'a' as CodeUnit && Nbsp[1] == 'n' as CodeUnit;
    assert Lt[1] == 'l' as CodeUnit && Gt[1] == 'g' as CodeUnit;
    if u == '&' as CodeUnit {
      assert s[..|Amp|] == Amp && s[|Amp|..] == rest;
    } else if u == 0xA0 {
      assert s[1] == 'n' as CodeUnit;
      assert s[..|Nbsp|] == Nbsp && s[|Nbsp|..] == rest;
    } else if u == '<' as CodeUnit {
      assert s[1] == 'l' as CodeUnit;
      assert s[..|Lt|] == Lt && s[|Lt|..] == rest;
    } else if u == '>' as CodeUnit {
      assert s[1] == 'g' as CodeUnit;
      assert s[..|Gt|] == Gt && s[|Gt|..] == rest;
    } else {
      assert s[0] == u && s[1..] == rest;
    }
  }

  /** A text without carriage returns and U+0000. */
  predicate ParsesVerbatim(s: JsString)
  {
    forall i :: 0 <= i < |s| ==> s[i] != 0x0D && s[i] != 0
  }

  /** The parser's rules for the two control characters, applied to plain
      text: a carriage return, alone or before a line feed, becomes one
      line feed, and U+0000 is dropped. */
  function ParseNewlines(s: JsString): (r: JsString)
    ensures ParsesVerbatim(r)
    ensures |r| <= |s|
    decreases |s|
  {
    if s == [] then []
    else if s[0] == 0x0D then
      [0x0A] + (if |s| >= 2 && s[1] == 0x0A then ParseNewlines(s[2..]) else ParseNewlines(s[1..]))
    else if s[0] == 0 then ParseNewlines(s[1..])
    else [s[0]] + ParseNewlines(s[1..])
  }

  /** A text without the two control characters is left as it is. */
  lemma {:induction false} ParseNewlinesOfVerbatim(s: JsString)
    requires ParsesVerbatim(s)
    ensures ParseNewlines(s) == s
    decreases |s|
  {
    if s != [] {
      assert ParsesVerbatim(s[1..]) by {
        forall i | 0 <= i < |s[1..]| ensures s[1..][i] != 0x0D && s[1..][i] != 0 {
          assert s[1..][i] == s[i + 1];
        }
      }
      assert s[0] != 0x0D && s[0] != 0;
      ParseNewlinesOfVerbatim(s[1..]);
      assert [s[0]] + s[1..] == s;
    }
  }

  /** Escaping starts with a line feed exactly when the text does. */
  lemma EscapeHtmlHead(s: JsString)
    requires s != []
    ensures EscapeHtml(s) == EscapeUnit(s[0]) + EscapeHtml(s[1..])
    ensures EscapeHtml(s)[0] == 0x0A <==> s[0] == 0x0A
  {
  }

  /** What the browser shows for an escaped wish text is the text with the
      parser's control-character rules applied, and nothing else changed. */
  lemma {:induction false} UnescapeEscapeHtmlNormalises(s: JsString)
    ensures UnescapeHtml(EscapeHtml(s)) == ParseNewlines(s)
    decreases |s|
  {
    if s == [] {
    } else if s[0] == 0x0D {
      var e := EscapeHtml(s);
      EscapeHtmlHead(s);
      assert e == [0x0D] + EscapeHtml(s[1..]);
      if |s| >= 2 && s[1] == 0x0A {
        EscapeHtmlHead(s[1..]);
        assert s[1..][1..] == s[2..];
        assert e[1] == 0x0A && e[2..] == EscapeHtml(s[2..]);
        UnescapeEscapeHtmlNormalises(s[2..]);
      } else {
        if |s| >= 2 {
          EscapeHtmlHead(s[1..]);
          assert e[1] != 0x0A;
        }
        assert e[1..] == EscapeHtml(s[1..]);
        UnescapeEscapeHtmlNormalises(s[1..]);
      }
    } else if s[0] == 0 {
      var e := EscapeHtml(s);
      EscapeHtmlHead(s);
      assert e[0] == 0 && e[1..] == EscapeHtml(s[1..]);
      UnescapeEscapeHtmlNormalises(s[1..]);
    } else {
      EscapeHtmlHead(s);
      UnescapeEscapeHtmlNormalises(s[1..]);
      UnescapeEscapedUnit(s[0], EscapeHtml(s[1..]));
    }
  }

  /** Escaping loses nothing: for a text without carriage returns and
      U+0000 the browser shows exactly the wish's text. */
  lemma UnescapeEscapeHtml(s: JsString)
    requires ParsesVerbatim(s)
    ensures UnescapeHtml(EscapeHtml(s)) == s
  {
    UnescapeEscapeHtmlNormalises(s);
    ParseNewlinesOfVerbatim(s);
  }

  /** The other texts are not shown as they are: a carriage return is
      shown as a line feed, and U+0000 not at all. */
  lemma EscapedControlsAreNormalised()
    ensures UnescapeHtml(EscapeHtml([0x0D])) == [0x0A]
    ensures UnescapeHtml(EscapeHtml([0x0D, 0x0A])) == [0x0A]
    ensures UnescapeHtml(EscapeHtml([0])) == []
  {
    assert EscapeHtml([0x0D]) == [0x0D] by { assert [0x0D as CodeUnit][1..] == []; }
    assert EscapeHtml([0x0D, 0x0A]) == [0x0D, 0x0A] by {
      assert [0x0D as CodeUnit, 0x0A][1..] == [0x0A];
      assert [0x0A as CodeUnit][1..] == [];
    }
    assert EscapeHtml([0]) == [0] by { assert [0 as CodeUnit][1..] == []; }
    assert [0x0D as CodeUnit, 0x0A][2..] == [];
    assert [0x0D as CodeUnit][1..] == [];
    assert [0 as CodeUnit][1..] == [];
  }

  // ---------------------------------------------------------------------
  // The wish list

  /** One element of the wish list: the escaped text, the colour name with
      its marker colour, and the wish's creation time (shown as a local
      time of day, whose formatting is not modelled). */
  datatype Entry = Entry(markup: JsString, colorName: JsString, marker: JsString, createdAt: JsString)

  function EntryFor(w: Wish): Entry
  {
    Entry(EscapeHtml(w.text), w.color, GetColorCode(w.color), w.createdAt)
  }

  /** The list after `updateWishesList(ws)`: the container emptied, then one
      entry appended per wish. */
  function Entries(ws: seq<Wish>): (es: seq<Entry>)
    ensures |es| == |ws|
    decreases |ws|
  {
    if ws == [] then [] else Entries(ws[..|ws| - 1]) + [EntryFor(ws[|ws| - 1])]
  }

  /** Entry i shows wish i: one entry per wish, in the order received. */
  lemma {:induction false} EntriesAt(ws: seq<Wish>, i: nat)
    requires i < |ws|
    ensures Entries(ws)[i] == EntryFor(ws[i])
    decreases |ws|
  {
    if i < |ws| - 1 {
      EntriesAt(ws[..|ws| - 1], i);
    }
  }

  /** Rendering depends on the wishes alone: two renderings of the same
      sequence show the same entries, and rendering a longer sequence
      extends the rendering of its prefix. */
  lemma {:induction false} EntriesOfPrefix(ws: seq<Wish>, k: nat)
    requires k <= |ws|
    ensures Entries(ws[..k]) == Entries(ws)[..k]
    decreases |ws|
  {
    if k < |ws| {
      assert ws[..|ws| - 1][..k] == ws[..k];
      EntriesOfPrefix(ws[..|ws| - 1], k);
    } else {
      assert ws[..k] == ws;
    }
  }

  // ---------------------------------------------------------------------
  // Ornaments on the tree

  /** A slot on the tree, in percent of the tree's height and width. */
  datatype Position = Position(top: nat, left: nat)

  /** The fourteen slots of `updateTreeBalls`, top to bottom. */
  const Positions: seq<Position> := [
    Position(15, 50),
    Position(25, 40), Position(25, 60),
    Position(35, 35), Position(35, 65),
    Position(45, 45), Position(45, 55),
    Position(55, 30), Position(55, 70),
    Position(65, 50),
    Position(75, 40), Position(75, 60),
    Position(85, 35), Position(85, 65)
  ]

  /** No two slots coincide. */
  lemma PositionsDistinct()
    ensures |Positions| == 14
    ensures forall i, j :: 0 <= i < j < |Positions| ==> Positions[i] != Positions[j]
  {
  }

  datatype Icon = Star | Heart

  /** Where an ornament sits: one of the fixed slots, or a random point of
      the band near the bottom of the tree (top 85-95%, left 35-65%). */
  datatype Spot = Slot(position: Position) | LowerBand

  /** How an ornament is turned: by a fixed angle, or starting from zero
      size and growing to full size while turning once. */
  datatype Pose = Turned(degrees: int) | PopIn

  datatype Ornament = Ornament(spot: Spot, pose: Pose, colorClass: JsString, title: JsString, icon: Icon)

  /** The CSS class that colours an ornament. */
  function BallClass(color: JsString): (c: JsString)
    ensures |c| == 5 + |color| && c[..5] == Lit("ball-") && c[5..] == color
  {
    Lit("ball-") + color
  }

  const TitleLimit: nat := 50
  const TitleKeep: nat := 47
  const Ellipsis: JsString := Lit("...")

  /** The tooltip of a placed ornament: the text itself when it is at most
      50 units long, otherwise its first 47 units and "...". */
  function Tooltip(text: JsString): (t: JsString)
    ensures |t| <= TitleLimit
    ensures |text| <= TitleLimit ==> t == text
    ensures |text| > TitleLimit ==> |t| == TitleLimit && t == text[..TitleKeep] + Ellipsis
  {
    if |text| > TitleLimit then text[..TitleKeep] + Ellipsis else text
  }

  /** A tooltip always starts with the beginning of the text, and a tooltip
      is its own tooltip. */
  lemma TooltipIsPrefixed(text: JsString)
    ensures var t := Tooltip(text); var k := Min(|text|, TitleKeep); t[..k] == text[..k]
    ensures Tooltip(Tooltip(text)) == Tooltip(text)
  {
  }

  /** The ornament `addBallToPosition(wish, positions[index], index)` adds. */
  function PlacedBall(w: Wish, index: nat): Ornament
    requires index < |Positions|
  {
    Ornament(Slot(Positions[index]), Turned(index * 25), BallClass(w.color), Tooltip(w.text), Star)
  }

  /** The ornament `addNewBallToTree(wish)` adds for a wish just submitted:
      its tooltip is the whole text. */
  function NewBall(w: Wish): Ornament
  {
    Ornament(LowerBand, PopIn, BallClass(w.color), w.text, Heart)
  }

  /** The ornaments for a sequence of at most fourteen wishes, added one
      after another. */
  function Balls(ws: seq<Wish>): (os: seq<Ornament>)
    requires |ws| <= |Positions|
    ensures |os| == |ws|
    decreases |ws|
  {
    if ws == [] then [] else Balls(ws[..|ws| - 1]) + [PlacedBall(ws[|ws| - 1], |ws| - 1)]
  }

  /** The tree after `updateTreeBalls(ws)`: the container emptied, then an
      ornament for each of the first fourteen wishes. */
  function Ornaments(ws: seq<Wish>): (os: seq<Ornament>)
    ensures |os| == Min(|ws|, |Positions|)
  {
    Balls(ws[..Min(|ws|, |Positions|)])
  }

  lemma {:induction false} BallsAt(ws: seq<Wish>, i: nat)
    requires |ws| <= |Positions| && i < |ws|
    ensures Balls(ws)[i] == PlacedBall(ws[i], i)
    decreases |ws|
  {
    if i < |ws| - 1 {
      BallsAt(ws[..|ws| - 1], i);
    }
  }

  /** Ornament i belongs to wish i: it sits in slot i, is turned by
      i * 25 degrees, carries the wish's colour class and its tooltip. */
  lemma OrnamentsAt(ws: seq<Wish>, i: nat)
    requires i < Min(|ws|, |Positions|)
    ensures Ornaments(ws)[i] == PlacedBall(ws[i], i)
    ensures Ornaments(ws)[i].spot == Slot(Positions[i])
    ensures Ornaments(ws)[i].pose == Turned(i * 25)
    ensures Ornaments(ws)[i].colorClass == Lit("ball-") + ws[i].color
    ensures Ornaments(ws)[i].title == Tooltip(ws[i].text)
  {
    BallsAt(ws[..Min(|ws|, |Positions|)], i);
  }

  /** No two ornaments of a rendering share a slot. */
  lemma OrnamentsInDistinctSlots(ws: seq<Wish>, i: nat, j: nat)
    requires i < j < Min(|ws|, |Positions|)
    ensures Ornaments(ws)[i].spot != Ornaments(ws)[j].spot
  {
    OrnamentsAt(ws, i);
    OrnamentsAt(ws, j);
    PositionsDistinct();
  }
}
