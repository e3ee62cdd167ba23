/** The plan parser: turns the language model's free-text reply into the list of
    day records and the grocery text the page renders.

    The reply is a sequence of blocks joined by "|||". Each block is stripped of
    surrounding whitespace and classified by its prefix: a block that starts with
    "Day:" yields one record (day label, workout text, meal text); a block that
    starts with "GROCERY" replaces the grocery text; every other block is
    ignored. */
module PlanParser {
  import opened Text

  /** One record of the plan: the dictionary with keys day, workout and meal. */
  datatype DayPlan = DayPlan(day: string, workout: string, meal: string)

  /** What the parser returns: the records in block order and the grocery text. */
  datatype ParseResult = ParseResult(days: seq<DayPlan>, grocery: string)

  const Separator: string := "|||"
  const DayMarker: string := "Day:"
  const WorkoutMarker: string := "Workout:"
  const MealMarker: string := "Meal:"
  const GroceryMarker: string := "GROCERY"

  const NoGroceryList: string := "No grocery list generated."
  const RestDay: string := "Rest"
  const StandardDiet: string := "Standard Diet"

  /** The day label: the group of `Day:\s*(.*)`. The search takes the first
      "Day:", skips every whitespace character after it (newlines included) and
      takes the rest of the line the skipping stopped on; the label is not
      stripped on the right. None where the search finds no "Day:" at all, the
      case in which reading the group raises. */
  function DayLabel(block: string): (r: Option<string>)
    ensures r.Some? <==> Find(block, DayMarker, 0).Some?
    ensures r.Some? ==> '\n' !in r.value
    ensures r.Some? && r.value != [] ==> !IsSpace(r.value[0])
  {
    match Find(block, DayMarker, 0)
    case None => None
    case Some(p) =>
      var (k, e) := SpacedLine(block, p + |DayMarker|);
      assert forall x :: 0 <= x < e - k ==> block[k..e][x] == block[k + x];
      Some(block[k..e])
  }

  /** The workout text: the group of `Workout:\s*(.*?)(?=Meal:)` with DOTALL,
      stripped, or "Rest" when there is no match. The search takes the first
      "Workout:", skips the whitespace after it, and lets the lazy group run to
      the first "Meal:" from there. A later "Workout:" never matches where the
      first did not, since any "Meal:" after it is after the first one too. */
  function WorkoutText(block: string): (r: string)
    ensures Find(block, WorkoutMarker, 0).None? ==> r == RestDay
  {
    match Find(block, WorkoutMarker, 0)
    case None => RestDay
    case Some(w) =>
      var k := SkipSpace(block, w + |WorkoutMarker|);
      match Find(block, MealMarker, k)
      case None => RestDay
      case Some(m) => Trim(block[k..m])
  }

  /** The meal text: the group of `Meal:\s*(.*)` with DOTALL, stripped: everything
      after the first "Meal:" and the whitespace that follows it, to the end of
      the block, later markers included. "Standard Diet" when the block has no
      "Meal:". */
  function MealText(block: string): (r: string)
    ensures Find(block, MealMarker, 0).None? ==> r == StandardDiet
  {
    match Find(block, MealMarker, 0)
    case None => StandardDiet
    case Some(m) => Trim(block[SkipSpace(block, m + |MealMarker|)..])
  }

  /** The record a stripped "Day:" block yields, or None where the source's
      `except` clause drops the block. Only the day-label search can fail, and it
      cannot fail on a block that starts with "Day:". */
  function ParseDayBlock(block: string): (r: Option<DayPlan>)
    ensures r.Some? <==> Find(block, DayMarker, 0).Some?
    ensures StartsWith(block, DayMarker) ==> r.Some?
  {
    assert StartsWith(block, DayMarker) ==> OccursAt(block, DayMarker, 0);
    match DayLabel(block)
    case None => None
    case Some(day) => Some(DayPlan(day, WorkoutText(block), MealText(block)))
  }

  /** A block the parser reads as a day: its stripped text starts with "Day:",
      so the search for "Day:" in it finds the marker at its start. */
  predicate IsDayBlock(block: string)
    ensures IsDayBlock(block) ==> Find(Trim(block), DayMarker, 0) == Some(0)
  {
    StartsWith(Trim(block), DayMarker)
  }

  /** A block the parser reads as the grocery list: its stripped text starts
      with "GROCERY", so the first "GROCERY" the replace removes is that one. */
  predicate IsGroceryBlock(block: string)
    ensures IsGroceryBlock(block) ==> Find(Trim(block), GroceryMarker, 0) == Some(0)
  {
    StartsWith(Trim(block), GroceryMarker)
  }

  /** The grocery text a stripped GROCERY block leaves behind: every "GROCERY"
      removed in one pass, then stripped. */
  function GroceryText(block: string): (text: string)
    ensures text == [] || (!IsSpace(text[0]) && !IsSpace(text[|text| - 1]))
  {
    Trim(ReplaceAll(block, GroceryMarker, []))
  }

  /** The records the loop has appended after reading blocks, in block order. */
  function DayPlans(blocks: seq<string>): (plans: seq<DayPlan>)
    ensures |plans| <= |blocks|
  {
    if blocks == [] then []
    else
      var prior := DayPlans(blocks[..|blocks| - 1]);
      var block := Trim(blocks[|blocks| - 1]);
      if StartsWith(block, DayMarker) then
        match ParseDayBlock(block)
        case Some(plan) => prior + [plan]
        case None => prior
      else prior
  }

  /** The index of the last block the parser reads as the grocery list, if
      any: a block whose stripped text starts with "GROCERY" but not with
      "Day:". */
  function LastGroceryBlock(blocks: seq<string>): (r: Option<nat>)
    ensures r.Some? ==> r.value < |blocks|
  {
    if blocks == [] then None
    else
      var n := |blocks| - 1;
      if IsGroceryBlock(blocks[n]) && !IsDayBlock(blocks[n]) then Some(n)
      else LastGroceryBlock(blocks[..n])
  }

  /** The grocery text after the loop has read blocks: the fallback until a
      GROCERY block is seen, then the text of the latest one. */
  function GrocerySection(blocks: seq<string>): (text: string)
    ensures text == [] || (!IsSpace(text[0]) && !IsSpace(text[|text| - 1]))
  {
    match LastGroceryBlock(blocks)
    case None => NoGroceryList
    case Some(j) => GroceryText(Trim(blocks[j]))
  }

  /** What parse_ai_response returns for a reply: at most one record per
      block. */
  function Parse(text: string): (r: ParseResult)
    ensures |r.days| <= |Split(text, Separator)|
  {
    var blocks := Split(text, Separator);
    ParseResult(DayPlans(blocks), GrocerySection(blocks))
  }

  /** parse_ai_response: one pass over the blocks, appending a record for each
      day block and overwriting the grocery text for each GROCERY block. */
  method ParseAiResponse(text: string) returns (days: seq<DayPlan>, grocery: string)
    ensures ParseResult(days, grocery) == Parse(text)
  {
    days := [];
    grocery := NoGroceryList;
    var blocks := Split(text, Separator);
    for i := 0 to |blocks|
      invariant days == DayPlans(blocks[..i])
      invariant grocery == GrocerySection(blocks[..i])
    {
      assert blocks[..i + 1][..i] == blocks[..i];
      GrocerySectionStep(blocks[..i + 1]);
      var block := Trim(blocks[i]);
      if StartsWith(block, DayMarker) {
        var parsed := ParseDayBlock(block);
        if parsed.Some? {
          days := days + [parsed.value];
        }
      } else if StartsWith(block, GroceryMarker) {
        grocery := GroceryText(block);
      }
    }
    assert blocks[..|blocks|] == blocks;
  }

  // ----- Lemmas -----

  /** One step of the grocery text: a last block that the parser reads as the
      grocery list gives the text; any other leaves the text as it was. */
  lemma GrocerySectionStep(blocks: seq<string>)
    requires blocks != []
    ensures var n := |blocks| - 1;
      GrocerySection(blocks)
      == if IsGroceryBlock(blocks[n]) && !IsDayBlock(blocks[n]) then GroceryText(Trim(blocks[n]))
         else GrocerySection(blocks[..n])
  {
    var n := |blocks| - 1;
    match LastGroceryBlock(blocks[..n])
    case None =>
    case Some(j) => assert blocks[..n][j] == blocks[j];
  }

  /** The workout text is the text between the first "Workout:" (at w) and
      the first "Meal:" after it (at m), stripped. The whitespace the regex
      skips is whitespace the strip would remove anyway. */
  lemma WorkoutTextBetweenMarkers(block: string, w: nat, m: nat)
    requires Find(block, WorkoutMarker, 0) == Some(w)
    requires Find(block, MealMarker, w + |WorkoutMarker|) == Some(m)
    ensures WorkoutText(block) == Trim(block[w + |WorkoutMarker|..m])
  {
    var p := w + |WorkoutMarker|;
    var k := SkipSpace(block, p);
    SpaceHoldsNoMeal(block, p, k);
    assert WorkoutText(block) == Trim(block[k..m]);
    SpacePrefixIgnored(block, p, k, m);
  }

  /** Without a "Meal:" after the first "Workout:" the workout text is "Rest". */
  lemma WorkoutTextWithoutMeal(block: string, w: nat)
    requires Find(block, WorkoutMarker, 0) == Some(w)
    requires Find(block, MealMarker, w + |WorkoutMarker|).None?
    ensures WorkoutText(block) == RestDay
  {
    var p := w + |WorkoutMarker|;
    SpaceHoldsNoMeal(block, p, SkipSpace(block, p));
  }

  /** Whitespace at the front of a slice does not change its stripped text. */
  lemma SpacePrefixIgnored(s: string, p: nat, k: nat, m: nat)
    requires p <= k <= m <= |s| && SpaceBetween(s, p, k)
    ensures Trim(s[p..m]) == Trim(s[k..m])
  {
    assert s[p..m] == s[p..k] + s[k..m] + [];
    assert AllSpace(s[p..k]);
    TrimIgnoresPadding(s[p..k], s[k..m], []);
  }

  /** The meal text is everything after the first "Meal:" (at m), stripped. */
  lemma MealTextAfterMarker(block: string, m: nat)
    requires Find(block, MealMarker, 0) == Some(m)
    ensures MealText(block) == Trim(block[m + |MealMarker|..])
  {
    var p := m + |MealMarker|;
    var k := SkipSpace(block, p);
    assert MealText(block) == Trim(block[k..]);
    SpacePrefixIgnored(block, p, k, |block|);
    assert block[k..|block|] == block[k..] && block[p..|block|] == block[p..];
  }

  /** No "Meal:" starts inside a run of whitespace. */
  lemma SpaceHoldsNoMeal(block: string, p: nat, k: nat)
    requires p <= k <= |block| && SpaceBetween(block, p, k)
    ensures Find(block, MealMarker, p) == Find(block, MealMarker, k)
  {
    AbsentInSpace(block, MealMarker, p, k);
    FindSkips(block, MealMarker, p, k);
  }
}
