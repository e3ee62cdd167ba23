/** The grocery card: the grocery text rewritten into HTML by five whole-text
    substitutions, applied in order, before it is placed in the side column. */
module GroceryFormat {
  import opened Text
  import opened PlanParser

  const HeadingMarker: string := "####"
  const BoldMarker: string := "**"
  const ItemMarker: string := "\n*"

  // The replacement templates; each group is placed between open and close.
  const HeadingOpen: string :=
    "<h4 style=\"color: #FFD700; " + "border-bottom: 1px solid #FFD700; "
    + "padding-bottom: 5px; " + "margin-top: 15px;\">"
  const HeadingClose: string := "</h4>"
  const StrongOpen: string := "<strong style=\"color: white;\">"
  const StrongClose: string := "</strong>"
  const ItemOpen: string := "<div style=\"margin-bottom: 5px; " + "color: #e0e0e0;\">\U{2022} "
  const ItemClose: string := "</div>"

  /** Step 1, `####\s*(.*)` to an h4 heading. Each "####", scanning left to
      right, is replaced together with the whitespace after it (line breaks
      included) and the rest of the line that whitespace stops on; that line
      becomes the heading. */
  function Headings(s: string): (r: string)
    ensures r == s <==> Find(s, HeadingMarker, 0) == None
    decreases |s|
  {
    match Find(s, HeadingMarker, 0)
    case None => s
    case Some(i) =>
      var body := s[i + |HeadingMarker|..];
      var (k, e) := SpacedLine(body, 0);
      TemplatesOpen();
      Rewritten(s, HeadingMarker, i, HeadingOpen, body[k..e], HeadingClose, Headings(body[e..]));
      s[..i] + HeadingOpen + body[k..e] + HeadingClose + Headings(body[e..])
  }

  /** Step 2, `\*\*(.*?)\*\*` to strong text. An opening "**" takes the
      nearest later "**" as its close when no line break lies between them;
      otherwise that opening is no match and the scan moves on one character. */
  function Bold(s: string): (r: string)
    ensures '\n' in r <==> '\n' in s
    decreases |s|
  {
    match Find(s, BoldMarker, 0)
    case None => s
    case Some(i) =>
      var body := s[i + |BoldMarker|..];
      match Find(body, BoldMarker, 0)
      case Some(j) =>
        if '\n' !in body[..j] then
          FindFound(s, BoldMarker, 0);
          FindFound(body, BoldMarker, 0);
          var rest := body[j + |BoldMarker|..];
          StrongChars();
          BoldKeepsLines(s, i, body[..j], rest, Bold(rest));
          s[..i] + StrongOpen + body[..j] + StrongClose + Bold(rest)
        else
          assert s == s[..i + 1] + s[i + 1..];
          s[..i + 1] + Bold(s[i + 1..])
      case None =>
        assert s == s[..i + 1] + s[i + 1..];
        s[..i + 1] + Bold(s[i + 1..])
  }

  /** Step 3, `\n\*\s*(.*)` to an item: a line break directly followed by "*",
      the whitespace after it and the rest of the line it stops on. */
  function ListItems(s: string): (r: string)
    ensures r == s <==> Find(s, ItemMarker, 0) == None
    decreases |s|
  {
    match Find(s, ItemMarker, 0)
    case None => s
    case Some(i) =>
      var body := s[i + |ItemMarker|..];
      var (k, e) := SpacedLine(body, 0);
      TemplatesOpen();
      Rewritten(s, ItemMarker, i, ItemOpen, body[k..e], ItemClose, ListItems(body[e..]));
      s[..i] + ItemOpen + body[k..e] + ItemClose + ListItems(body[e..])
  }

  /** Step 4, `^\*\s*(.*)` to an item: only at the very start of the text. */
  function LeadingItem(s: string): (r: string)
    ensures r == s <==> !StartsWith(s, "*")
  {
    TemplatesOpen();
    if s != [] && s[0] == '*' then
      var body := s[1..];
      var (k, e) := SpacedLine(body, 0);
      ItemOpen + body[k..e] + ItemClose + body[e..]
    else s
  }

  /** The whole rewrite; step 5 deletes every line break left. */
  function FormatGrocery(text: string): (html: string)
    ensures '\n' !in html
  {
    var s := LeadingItem(ListItems(Bold(Headings(text))));
    RemoveCharLeavesNone(s, '\n');
    ReplaceAll(s, "\n", [])
  }

  // ----- Lemmas -----

  /** Text with no "#", "*" or line break leaves the rewrite unchanged. */
  lemma PlainTextUnchanged(text: string)
    requires '#' !in text && '*' !in text && '\n' !in text
    ensures FormatGrocery(text) == text
  {
    HeadingsNeedMarker(text);
    BoldNeedsMarker(text);
    ListItemsNeedMarker(text);
    NoOccurrenceWithout(text, "\n", 0);
    ReplaceAbsent(text, "\n", []);
  }

  /** Step 1 leaves text without "#" unchanged. */
  lemma HeadingsNeedMarker(s: string)
    requires '#' !in s
    ensures Headings(s) == s
  {
    NoOccurrenceWithout(s, HeadingMarker, 0);
    FindNothing(s, HeadingMarker);
  }

  /** Step 2 leaves text without "*" unchanged. */
  lemma BoldNeedsMarker(s: string)
    requires '*' !in s
    ensures Bold(s) == s
  {
    NoOccurrenceWithout(s, BoldMarker, 0);
    FindNothing(s, BoldMarker);
  }

  /** Step 3 leaves text without a line break unchanged. */
  lemma ListItemsNeedMarker(s: string)
    requires '\n' !in s
    ensures ListItems(s) == s
  {
    NoOccurrenceWithout(s, ItemMarker, 0);
    FindNothing(s, ItemMarker);
  }

  /** A heading line: "####", blanks, then a line of text, becomes that line
      as an h4 heading; text before it without "#" is kept. */
  lemma HeadingLine(a: string, ws: string, t: string, rest: string)
    requires '#' !in a && AllSpace(ws)
    requires t != [] && !IsSpace(t[0]) && '\n' !in t
    requires rest == [] || rest[0] == '\n'
    ensures Headings(a + HeadingMarker + (ws + t + rest))
            == a + HeadingOpen + t + HeadingClose + Headings(rest)
  {
    var body := ws + t + rest;
    FirstMarkerAfter(a, HeadingMarker, body);
    var e := LineOf(ws, t, rest);
  }

  /** A bold span "**t**" on one line becomes strong text; text before it
      without "*" is kept. */
  lemma BoldSpan(a: string, t: string, rest: string)
    requires '*' !in a && '*' !in t && '\n' !in t
    ensures Bold(a + BoldMarker + (t + BoldMarker + rest))
            == a + StrongOpen + t + StrongClose + Bold(rest)
  {
    var body := t + BoldMarker + rest;
    FirstMarkerAfter(a, BoldMarker, body);
    FirstMarkerAfter(t, BoldMarker, rest);
    assert body[..|t|] == t && body[|t| + |BoldMarker|..] == rest;
  }

  /** An opening "**" with no closing one is left as it is. */
  lemma UnclosedBoldKept(a: string, t: string)
    requires '*' !in a && '*' !in t
    ensures Bold(a + BoldMarker + t) == a + BoldMarker + t
  {
    var s := a + BoldMarker + t;
    FirstMarkerAfter(a, BoldMarker, t);
    NoOccurrenceWithout(t, BoldMarker, 0);
    FindNothing(t, BoldMarker);
    var u := s[|a| + 1..];
    assert u == "*" + t;
    forall j: nat | j + |BoldMarker| <= |u| ensures !OccursAt(u, BoldMarker, j) {
      assert u[j..j + |BoldMarker|][1] == u[j + 1] == t[j];
    }
    FindNothing(u, BoldMarker);
    assert s[..|a| + 1] + u == s;
  }

  /** A list item: a line break, "*", blanks, then a line of text, becomes an
      item; text before it without a line break is kept. */
  lemma ItemLine(a: string, ws: string, t: string, rest: string)
    requires '\n' !in a && AllSpace(ws)
    requires t != [] && !IsSpace(t[0]) && '\n' !in t
    requires rest == [] || rest[0] == '\n'
    ensures ListItems(a + ItemMarker + (ws + t + rest))
            == a + ItemOpen + t + ItemClose + ListItems(rest)
  {
    var body := ws + t + rest;
    FirstMarkerAfter(a, ItemMarker, body);
    var e := LineOf(ws, t, rest);
  }

  /** An item indented after its line break is not an item for step 3: only a
      "*" right after the line break is. */
  lemma IndentedItemKept(indent: string, t: string)
    requires indent != [] && '*' !in indent && '\n' !in indent && '\n' !in t
    ensures ListItems("\n" + indent + t) == "\n" + indent + t
  {
    var s := "\n" + indent + t;
    forall j: nat | j + |ItemMarker| <= |s| ensures !OccursAt(s, ItemMarker, j) {
      if j == 0 {
        assert s[j..j + |ItemMarker|][1] == indent[0];
      } else {
        assert s[j..j + |ItemMarker|][0] == s[j];
      }
    }
    FindNothing(s, ItemMarker);
  }

  /** A text starting with "*", blanks and a line becomes an item; the rest is
      kept as it is. */
  lemma LeadingItemLine(ws: string, t: string, rest: string)
    requires AllSpace(ws) && t != [] && !IsSpace(t[0]) && '\n' !in t
    requires rest == [] || rest[0] == '\n'
    ensures LeadingItem("*" + (ws + t + rest)) == ItemOpen + t + ItemClose + rest
  {
    var e := LineOf(ws, t, rest);
    assert ("*" + (ws + t + rest))[1..] == ws + t + rest;
  }

  /** The fallback grocery text is shown as it is. */
  lemma FallbackUnchanged()
    ensures FormatGrocery(NoGroceryList) == NoGroceryList
  {
    FallbackChars();
    PlainTextUnchanged(NoGroceryList);
  }

  lemma FallbackChars()
    ensures '#' !in NoGroceryList && '*' !in NoGroceryList && '\n' !in NoGroceryList
  {
  }

  /** A heading line followed by one list item, as the reply's grocery block
      writes them, becomes an h4 heading followed by one item, on one line. */
  lemma HeadingThenItem(heading: string, item: string)
    requires heading != [] && !IsSpace(heading[0]) && item != [] && !IsSpace(item[0])
    requires '#' !in heading && '*' !in heading && '\n' !in heading
    requires '#' !in item && '*' !in item && '\n' !in item
    ensures FormatGrocery(HeadingMarker + " " + heading + "\n* " + item)
            == HeadingOpen + heading + HeadingClose + ItemOpen + item + ItemClose
  {
    TemplateChars();
    var line := HeadingOpen + heading + HeadingClose;
    var rest := "\n* " + item;
    assert rest[0] == '\n' && '#' !in rest;
    var text := HeadingMarker + " " + heading + "\n* " + item;
    Regrouped(HeadingMarker + " ", heading, "\n* ", item);
    HeadingBeforeRest(heading, rest);
    var s1 := Headings(text);
    assert s1 == line + rest;
    ItemAfterLine(line, item);
    var s3 := line + ItemOpen + item + ItemClose;
    assert ListItems(Bold(s1)) == s3;
    OneLineKept(s3);
    assert FormatGrocery(text) == ReplaceAll(LeadingItem(s3), "\n", []);
  }

  /** Step 1 on a heading line followed by text with no "#". */
  lemma HeadingBeforeRest(heading: string, rest: string)
    requires heading != [] && !IsSpace(heading[0]) && '\n' !in heading
    requires (rest == [] || rest[0] == '\n') && '#' !in rest
    ensures Headings(HeadingMarker + " " + heading + rest)
            == HeadingOpen + heading + HeadingClose + rest
  {
    Unprefixed(HeadingMarker, " ", heading, rest);
    HeadingLine([], " ", heading, rest);
    HeadingsNeedMarker(rest);
    Unprefixed(HeadingOpen, heading, HeadingClose, rest);
  }

  /** Steps 2 and 3 on a line with no "*" or line break, then one item. */
  lemma ItemAfterLine(line: string, item: string)
    requires '*' !in line && '\n' !in line
    requires item != [] && !IsSpace(item[0]) && '*' !in item && '\n' !in item
    ensures ListItems(Bold(line + ("\n* " + item))) == line + ItemOpen + item + ItemClose
  {
    var s := line + ("\n* " + item);
    assert s == (line + "\n") + "*" + (" " + item);
    BoldSingleStar(line + "\n", " " + item);
    assert s == line + ItemMarker + (" " + item + []);
    ItemLine(line, " ", item, []);
    assert ListItems([]) == [];
  }

  /** Steps 4 and 5 leave a text that starts with "<" and has no line break. */
  lemma OneLineKept(s: string)
    requires s != [] && s[0] == '<' && '\n' !in s
    ensures ReplaceAll(LeadingItem(s), "\n", []) == s
  {
    NoOccurrenceWithout(s, "\n", 0);
    ReplaceAbsent(s, "\n", []);
  }

  /** An opening "**" whose nearest closing "**" lies after a line break is
      no match, and neither is that closing "**" with nothing after it. */
  lemma BoldAcrossLineKept(a: string, t: string, u: string)
    requires '*' !in a && '*' !in t && '*' !in u && '\n' in t
    ensures Bold(a + BoldMarker + (t + BoldMarker + u)) == a + BoldMarker + (t + BoldMarker + u)
  {
    var s := a + BoldMarker + (t + BoldMarker + u);
    var body := t + BoldMarker + u;
    FirstMarkerAfter(a, BoldMarker, body);
    FirstMarkerAfter(t, BoldMarker, u);
    assert body[..|t|] == t;
    OpeningSkipped(s, |a|, |t|);
    TailAfterStar(a, BoldMarker, t, u);
    StrayThenUnclosed(t, u);
  }

  /** Cutting after the first "*" of a two-star marker. */
  lemma TailAfterStar(a: string, m: string, t: string, u: string)
    requires |m| == 2 && m[1] == '*'
    ensures var s := a + m + (t + m + u);
      s[|a| + 1..] == "*" + t + m + u && s[..|a| + 1] + s[|a| + 1..] == s
  {
    var s := a + m + (t + m + u);
    assert s[|a| + 1..] == [m[1]] + (t + m + u);
  }

  /** An opening "**" at i whose nearest close lies after a line break: the
      scan moves on one character. */
  lemma OpeningSkipped(s: string, i: nat, j: nat)
    requires Find(s, BoldMarker, 0) == Some(i)
    requires Find(s[i + |BoldMarker|..], BoldMarker, 0) == Some(j)
    requires '\n' in s[i + |BoldMarker|..][..j]
    ensures Bold(s) == s[..i + 1] + Bold(s[i + 1..])
  {
  }

  /** An opening "**" at n with no "*" after it: the scan moves on one
      character. */
  lemma OpeningUnclosed(v: string, n: nat)
    requires Find(v, BoldMarker, 0) == Some(n) && '*' !in v[n + |BoldMarker|..]
    ensures Bold(v) == v[..n + 1] + Bold(v[n + 1..])
  {
    NoOccurrenceWithout(v[n + |BoldMarker|..], BoldMarker, 0);
    FindNothing(v[n + |BoldMarker|..], BoldMarker);
  }

  /** A stray "*", a line without "*", then an opening "**" with no close. */
  lemma StrayThenUnclosed(t: string, u: string)
    requires t != [] && '*' !in t && '*' !in u
    ensures Bold("*" + t + BoldMarker + u) == "*" + t + BoldMarker + u
  {
    var v := "*" + t + BoldMarker + u;
    var n := |t| + 1;
    StrayFind(t, u);
    StarSlices(t, BoldMarker, u);
    OpeningUnclosed(v, n);
    LeadingStarKept(u);
  }

  /** The pieces of a stray "*", a line, a two-star marker and the rest. */
  lemma StarSlices(t: string, m: string, u: string)
    requires |m| == 2 && m[1] == '*'
    ensures var v := "*" + t + m + u; var n := |t| + 1;
      v[n + 2..] == u && v[n + 1..] == "*" + u && v[..n + 1] + ("*" + u) == v
  {
    var v := "*" + t + m + u;
    var n := |t| + 1;
    assert v[n + 1..] == [m[1]] + u;
  }

  /** A single "*" at the start of a text without another is no bold span. */
  lemma LeadingStarKept(u: string)
    requires '*' !in u
    ensures Bold("*" + u) == "*" + u
  {
    BoldSingleStar([], u);
    assert [] + "*" + u == "*" + u;
  }

  /** After a stray "*" and a line without "*", the first "**" is the one
      that follows the line. */
  lemma StrayFind(t: string, u: string)
    requires t != [] && '*' !in t
    ensures Find("*" + t + BoldMarker + u, BoldMarker, 0) == Some(|t| + 1)
  {
    var v := "*" + t + BoldMarker + u;
    var n := |t| + 1;
    assert v[1..n] == t && v[n..n + |BoldMarker|] == BoldMarker;
    AbsentWithoutFirst(v, BoldMarker, 1, n);
    assert v[0..2][1] == t[0];
    FindFirst(v, BoldMarker, 0, n);
  }

  /** A single "*" is not a bold span. */
  lemma BoldSingleStar(a: string, b: string)
    requires '*' !in a && '*' !in b
    ensures Bold(a + "*" + b) == a + "*" + b
  {
    var s := a + "*" + b;
    forall j: nat | j + |BoldMarker| <= |s| ensures !OccursAt(s, BoldMarker, j) {
      var w := s[j..j + |BoldMarker|];
      if j < |a| {
        assert w[0] == a[j];
      } else {
        assert w[1] == s[j + 1] == b[j - |a|];
      }
    }
    FindNothing(s, BoldMarker);
  }

  /** The templates hold no "*" and no line break. */
  lemma TemplateChars()
    ensures '*' !in HeadingOpen && '\n' !in HeadingOpen && HeadingOpen[0] == '<'
    ensures '*' !in HeadingClose && '\n' !in HeadingClose
    ensures '*' !in ItemOpen && '\n' !in ItemOpen && ItemOpen[0] == '<'
    ensures '*' !in ItemClose && '\n' !in ItemClose
  {
    HeadingStyleChars();
    BorderChars();
    PaddingChars();
    MarginChars();
    DivStyleChars();
    ColorChars();
  }

  /** The strong template holds no line break. */
  lemma StrongChars()
    ensures '\n' !in StrongOpen && '\n' !in StrongClose
  {
  }

  /** Replacing the two bold markers around a span by the strong template
      keeps whether there is a line break, when the rest is rewritten keeping
      it too. */
  lemma BoldKeepsLines(s: string, i: nat, t: string, rest: string, done: string)
    requires i + |BoldMarker| + |t| + |BoldMarker| <= |s| && OccursAt(s, BoldMarker, i)
    requires s[i + |BoldMarker|..][..|t|] == t && OccursAt(s[i + |BoldMarker|..], BoldMarker, |t|)
    requires rest == s[i + |BoldMarker|..][|t| + |BoldMarker|..]
    requires '\n' !in t && '\n' !in StrongOpen && '\n' !in StrongClose
    requires '\n' in done <==> '\n' in rest
    ensures '\n' in s[..i] + StrongOpen + t + StrongClose + done <==> '\n' in s
  {
    var body := s[i + |BoldMarker|..];
    assert body == body[..|t|] + body[|t|..|t| + |BoldMarker|] + rest;
    assert s == s[..i] + s[i..i + |BoldMarker|] + body;
  }

  /** The first characters of the heading and item templates. */
  lemma TemplatesOpen()
    ensures HeadingOpen[0] == '<' && ItemOpen[0] == '<'
  {
    HeadingStyleChars();
    DivStyleChars();
  }

  /** Replacing an occurrence of a marker by a template that starts with a
      different character changes the text. */
  lemma Rewritten(s: string, marker: string, i: nat, open: string, x: string, close: string, y: string)
    requires Find(s, marker, 0) == Some(i) && marker != [] && open != []
    requires marker[0] != open[0]
    ensures s[..i] + open + x + close + y != s
  {
    FindFound(s, marker, 0);
    assert s[i] == s[i..i + |marker|][0] == marker[0];
    assert (s[..i] + open + x + close + y)[i] == open[0];
  }

  // One lemma per piece of template, so that each proof sees one short literal.

  lemma HeadingStyleChars()
    ensures '*' !in "<h4 style=\"color: #FFD700; " && '\n' !in "<h4 style=\"color: #FFD700; "
  {
  }

  lemma BorderChars()
    ensures '*' !in "border-bottom: 1px solid #FFD700; "
    ensures '\n' !in "border-bottom: 1px solid #FFD700; "
  {
  }

  lemma PaddingChars()
    ensures '*' !in "padding-bottom: 5px; " && '\n' !in "padding-bottom: 5px; "
  {
  }

  lemma MarginChars()
    ensures '*' !in "margin-top: 15px;\">" && '\n' !in "margin-top: 15px;\">"
  {
  }

  lemma DivStyleChars()
    ensures '*' !in "<div style=\"margin-bottom: 5px; "
    ensures '\n' !in "<div style=\"margin-bottom: 5px; "
  {
  }

  lemma ColorChars()
    ensures '*' !in "color: #e0e0e0;\">\U{2022} " && '\n' !in "color: #e0e0e0;\">\U{2022} "
  {
  }

  // ----- Layout helpers -----

  /** Regrouping the last two of four texts. */
  lemma Regrouped(w: string, x: string, y: string, z: string)
    ensures w + x + y + z == w + x + (y + z)
  {
  }

  /** Regrouping four texts, with or without an empty text in front. */
  lemma Unprefixed(w: string, x: string, y: string, z: string)
    ensures [] + w + x + y + z == w + x + y + z
    ensures [] + w + (x + y + z) == w + x + y + z
  {
  }

  /** Blanks, then a line of text, then a line break or the end: the spaced
      line is exactly that text. */
  lemma LineOf(ws: string, t: string, rest: string) returns (e: nat)
    requires AllSpace(ws) && t != [] && !IsSpace(t[0]) && '\n' !in t
    requires rest == [] || rest[0] == '\n'
    ensures e == |ws| + |t| && SpacedLine(ws + t + rest, 0) == (|ws|, e)
    ensures (ws + t + rest)[|ws|..e] == t && (ws + t + rest)[e..] == rest
  {
    var s := ws + t + rest;
    e := |ws| + |t|;
    assert s[|ws|..e] == t && s[e..] == rest;
    assert forall x :: |ws| <= x < e ==> s[x] == t[x - |ws|];
    SpacedLineUnique(s, 0, |ws|, e);
  }
}
