/** The demo reply: the fixed text generate_plan_mock returns when no API key
    is given, and what the parser makes of it. */
module MockPlan {
  import opened Text
  import opened PlanParser
  import opened PlanProperties

  /** The indentation every line of the reply carries after the first. */
  const Indent: string := "    "
  /** A line break followed by the indentation. */
  const Pad: string := "\n" + Indent

  /** The text of one day block once stripped: "Day: <day>", then the workout
      line and the meal line, each indented. */
  function DayText(day: string, workout: string, meal: string): string
  {
    (DayMarker + " " + day + "\n" + Indent)
    + (WorkoutMarker + " " + workout + "\n" + Indent + MealMarker + " " + meal)
  }

  // The reply's literals, cut into short pieces (the text is the same).
  const PushLine: string := "* **Push:** Pushups (3x12)"
  const CoreLine: string := "\n* **Core:** Plank (45s)"
  const OatsLine: string := "* **Breakfast:** Oats"
  const LentilsLine: string := "\n* **Lunch:** Lentils"
  const LegsLine: string := "* **Legs:** Squats (3x15)"
  const CardioLine: string := "\n* **Cardio:** Jog (15m)"
  const EggsLine: string := "* **Breakfast:** Eggs"
  const RiceLine: string := "\n* **Lunch:** Rice"

  const MondayWorkout: string := PushLine + CoreLine
  const MondayMeal: string := OatsLine + LentilsLine
  const TuesdayWorkout: string := LegsLine + CardioLine
  const TuesdayMeal: string := EggsLine + RiceLine

  /** The lines of the grocery list and budget under the GROCERY heading. */
  const ListHeading: string := "#### \U{1F6D2} Shopping List\n"
  const DozenEggs: string := "    * 1 Dozen Eggs\n"
  const KiloRice: string := "    * 1kg Rice\n"
  const HalfKiloOats: string := "    * 500g Oats\n"
  const BudgetHeading: string := "    #### \U{1F4B0} Estimated Budget\n"
  const RupeeBudget: string := "    * Approx. \U{20B9}800 - \U{20B9}1200 INR"
  const RupeeNote: string := " (Indian Pricing)\n"
  const DollarBudget: string := "    * Approx. $15 - $20 USD"
  const DollarNote: string := " (Global Standard)"

  /** The first line of the list, without its line break. */
  const ShoppingListHeading: string := "#### \U{1F6D2} Shopping List"

  const GroceryList: string :=
    ListHeading + DozenEggs + KiloRice + HalfKiloOats + BudgetHeading + RupeeBudget
    + RupeeNote + DollarBudget + DollarNote

  /** The three blocks of the reply, each with the line break and indentation
      around it. */
  const MondayBlock: string := Pad + DayText("Monday", MondayWorkout, MondayMeal) + Pad
  const TuesdayBlock: string := Pad + DayText("Tuesday", TuesdayWorkout, TuesdayMeal) + Pad
  const GroceryBlock: string := Pad + GroceryMarker + Pad + GroceryList + Pad

  /** generate_plan_mock: the same reply whatever the profile. It splits into
      three blocks: the Monday and Tuesday day blocks, then the GROCERY block. */
  function GeneratePlanMock(): (reply: string)
    ensures var blocks := Split(reply, Separator);
      blocks == [MondayBlock, TuesdayBlock, GroceryBlock]
      && IsDayBlock(blocks[0]) && IsDayBlock(blocks[1])
      && IsGroceryBlock(blocks[2]) && !IsDayBlock(blocks[2])
  {
    MockBlocks();
    MondayBlock + Separator + TuesdayBlock + Separator + GroceryBlock
  }

  /** The records the demo reply is meant to show. */
  const MockDays: seq<DayPlan> :=
    [DayPlan("Monday", MondayWorkout, MondayMeal),
     DayPlan("Tuesday", TuesdayWorkout, TuesdayMeal)]

  /** A day label the layout below reads back unchanged: one line, no marker
      inside, no separator. */
  predicate PlainLabel(day: string)
  {
    day != [] && !IsSpace(day[0]) && '\n' !in day && 'W' !in day && ':' !in day && '|' !in day
  }

  /** A field that stripping leaves whole and that holds no separator. */
  predicate PlainField(text: string)
  {
    text != [] && !IsSpace(text[0]) && !IsSpace(text[|text| - 1]) && '|' !in text
  }

  // ----- Lemmas -----

  /** The demo reply parses into the Monday and Tuesday records, in that order,
      and the grocery list; the fallback text does not appear. */
  lemma MockReplyParses()
    ensures Parse(GeneratePlanMock()) == ParseResult(MockDays, GroceryList)
    ensures |Parse(GeneratePlanMock()).days| == 2
    ensures Parse(GeneratePlanMock()).grocery != NoGroceryList
  {
    MondayBlockReads();
    TuesdayBlockReads();
    GroceryBlockReads();
    ThreeBlocks(MondayBlock, TuesdayBlock, GroceryBlock, MockDays[0], MockDays[1], GroceryList);
    assert GroceryList[0] != NoGroceryList[0];
  }

  /** What the page shows for the demo reply: Monday's card, then Tuesday's,
      and a grocery card that opens with the shopping-list heading. */
  lemma MockReplyShown()
    ensures var r := Parse(GeneratePlanMock());
      |r.days| == 2 && r.days[0].day == "Monday" && r.days[1].day == "Tuesday"
      && StartsWith(r.grocery, ShoppingListHeading)
  {
    MockReplyParses();
    GroceryListOpens();
  }

  /** The grocery list opens with the shopping-list heading. */
  lemma GroceryListOpens()
    ensures StartsWith(GroceryList, ShoppingListHeading)
  {
    assert ListHeading[..|ShoppingListHeading|] == ShoppingListHeading;
    var h := ShoppingListHeading;
    var s := ListHeading;
    StartsWithPrefix(s, DozenEggs, h);
    s := s + DozenEggs;
    StartsWithPrefix(s, KiloRice, h);
    s := s + KiloRice;
    StartsWithPrefix(s, HalfKiloOats, h);
    s := s + HalfKiloOats;
    StartsWithPrefix(s, BudgetHeading, h);
    s := s + BudgetHeading;
    StartsWithPrefix(s, RupeeBudget, h);
    s := s + RupeeBudget;
    StartsWithPrefix(s, RupeeNote, h);
    s := s + RupeeNote;
    StartsWithPrefix(s, DollarBudget, h);
    s := s + DollarBudget;
    StartsWithPrefix(s, DollarNote, h);
  }

  /** The Monday block is a day block that parses into the Monday record. */
  lemma MondayBlockReads()
    ensures '|' !in MondayBlock && IsDayBlock(MondayBlock)
    ensures ParseDayBlock(Trim(MondayBlock)) == Some(MockDays[0])
  {
    MondayFields();
    PaddedDay("Monday", MondayWorkout, MondayMeal);
  }

  /** The Tuesday block is a day block that parses into the Tuesday record. */
  lemma TuesdayBlockReads()
    ensures '|' !in TuesdayBlock && IsDayBlock(TuesdayBlock)
    ensures ParseDayBlock(Trim(TuesdayBlock)) == Some(MockDays[1])
  {
    TuesdayFields();
    PaddedDay("Tuesday", TuesdayWorkout, TuesdayMeal);
  }

  /** The last block is the grocery list. */
  lemma GroceryBlockReads()
    ensures '|' !in GroceryBlock && IsGroceryBlock(GroceryBlock) && !IsDayBlock(GroceryBlock)
    ensures GroceryText(Trim(GroceryBlock)) == GroceryList
  {
    GroceryListFields();
    PaddedGrocery(GroceryList);
  }

  /** The demo reply's three blocks, and what the parser reads each as. */
  lemma MockBlocks()
    ensures var blocks := Split(MondayBlock + Separator + TuesdayBlock + Separator + GroceryBlock, Separator);
      blocks == [MondayBlock, TuesdayBlock, GroceryBlock]
      && IsDayBlock(blocks[0]) && IsDayBlock(blocks[1])
      && IsGroceryBlock(blocks[2]) && !IsDayBlock(blocks[2])
  {
    MondayBlockReads();
    TuesdayBlockReads();
    GroceryBlockReads();
    SplitThree(MondayBlock, TuesdayBlock, GroceryBlock);
  }

  /** A reply of two day blocks and a GROCERY block parses into the two
      records and the grocery text. */
  lemma ThreeBlocks(a: string, b: string, c: string, p: DayPlan, q: DayPlan, g: string)
    requires '|' !in a && '|' !in b && '|' !in c
    requires IsDayBlock(a) && ParseDayBlock(Trim(a)) == Some(p)
    requires IsDayBlock(b) && ParseDayBlock(Trim(b)) == Some(q)
    requires IsGroceryBlock(c) && !IsDayBlock(c) && GroceryText(Trim(c)) == g
    ensures Parse(a + Separator + b + Separator + c) == ParseResult([p, q], g)
  {
    SplitThree(a, b, c);
    TwoDaysThenGrocery(a, b, c, p, q);
    assert LastGroceryBlock([a, b, c]) == Some(2);
  }

  /** Two day blocks and a non-day block give the two records. */
  lemma TwoDaysThenGrocery(a: string, b: string, c: string, p: DayPlan, q: DayPlan)
    requires IsDayBlock(a) && ParseDayBlock(Trim(a)) == Some(p)
    requires IsDayBlock(b) && ParseDayBlock(Trim(b)) == Some(q)
    requires !IsDayBlock(c)
    ensures DayPlans([a, b, c]) == [p, q]
  {
    assert [a, b, c][..2] == [a, b];
    assert [a, b][..1] == [a];
    assert [a][..0] == [];
    assert DayPlans([a]) == [p];
    assert DayPlans([a, b]) == [p, q];
  }

  /** Three blocks without a separator inside, joined by two separators, split
      back into the three. */
  lemma SplitThree(a: string, b: string, c: string)
    requires '|' !in a && '|' !in b && '|' !in c
    ensures Split(a + Separator + b + Separator + c, Separator) == [a, b, c]
  {
    assert a + Separator + b + Separator + c == a + Separator + (b + Separator + c);
    BlockThenRest(a, b + Separator + c);
    BlockThenRest(b, c);
    AbsentWithoutFirst(c, Separator, 0, |c|);
    assert c[0..|c|] == c;
    SplitWithoutSep(c, Separator);
  }

  /** A block with no "|", a separator, then the rest: the block is the first
      piece. */
  lemma BlockThenRest(a: string, rest: string)
    requires '|' !in a
    ensures Split(a + Separator + rest, Separator) == [a] + Split(rest, Separator)
  {
    var s := a + Separator + rest;
    FirstMarkerAfter(a, Separator, rest);
    FindFound(s, Separator, 0);
    FindMisses(s, Separator, 0);
    SplitAtFirstSep(s, Separator, |a|);
  }

  /** A day block laid out as in the demo reply, with its surrounding line
      breaks, is read as a day and parses into its day, workout and meal. */
  lemma PaddedDay(day: string, workout: string, meal: string)
    requires PlainLabel(day) && PlainField(workout) && PlainField(meal) && 'M' !in workout
    ensures var block := Pad + DayText(day, workout, meal) + Pad;
      '|' !in block && IsDayBlock(block)
      && ParseDayBlock(Trim(block)) == Some(DayPlan(day, workout, meal))
  {
    var s := DayText(day, workout, meal);
    assert s[0] == 'D' && s[|s| - 1] == meal[|meal| - 1];
    TrimPadded(Pad, s, Pad);
    assert s[..|DayMarker|] == DayMarker;
    DayTextParses(day, workout, meal);
    DayBlockHasNoSeparator(day, workout, meal);
  }

  /** The stripped day block parses into its day, workout and meal. */
  lemma DayTextParses(day: string, workout: string, meal: string)
    requires PlainLabel(day) && PlainField(workout) && PlainField(meal) && 'M' !in workout
    ensures ParseDayBlock(DayText(day, workout, meal)) == Some(DayPlan(day, workout, meal))
  {
    NoOccurrenceWithout(day, WorkoutMarker, 0);
    NoOccurrenceWithout(day, MealMarker, 4);
    SpacedField(workout);
    SpacedField(meal);
    NoOccurrenceWithout(" " + workout, MealMarker, 0);
    assert DayText(day, workout, meal)
        == (DayMarker + " " + day + "\n" + Indent)
           + (WorkoutMarker + (" " + workout) + "\n" + Indent + MealMarker + (" " + meal));
    WellFormedDayBlock(" ", day, Indent, " " + workout, Indent, " " + meal);
  }

  /** The blank after a marker is stripped away from the field. */
  lemma SpacedField(text: string)
    requires PlainField(text)
    ensures Trim(" " + text) == text && (" " + text)[1..] == text
  {
    assert " " + text + [] == " " + text;
    TrimPadded(" ", text, []);
  }

  /** The GROCERY block laid out as in the demo reply is read as the grocery
      list, and its text is the list below the heading. */
  lemma PaddedGrocery(list: string)
    requires PlainField(list) && 'C' !in list
    ensures var block := Pad + GroceryMarker + Pad + list + Pad;
      '|' !in block && IsGroceryBlock(block) && !IsDayBlock(block)
      && GroceryText(Trim(block)) == list
  {
    var body := Pad + list;
    var s := GroceryMarker + body;
    assert Pad + GroceryMarker + Pad + list + Pad == Pad + s + Pad;
    assert s[0] == 'G' && s[|s| - 1] == list[|list| - 1];
    TrimPadded(Pad, s, Pad);
    assert s[..|GroceryMarker|] == GroceryMarker;
    DayAndGroceryExclusive(Pad + s + Pad);
    GroceryBody(body, list);
    GroceryBlockHasNoSeparator(list);
  }

  /** The heading and padding add no separator to the grocery block. */
  lemma GroceryBlockHasNoSeparator(list: string)
    requires '|' !in list
    ensures '|' !in Pad + GroceryMarker + Pad + list + Pad
  {
    assert '|' !in Pad;
    assert '|' !in GroceryMarker;
  }

  /** Removing the heading leaves the list, stripped of the line break. */
  lemma GroceryBody(body: string, list: string)
    requires PlainField(list) && 'C' !in list && body == Pad + list
    ensures GroceryText(GroceryMarker + body) == list
  {
    assert 'C' !in body;
    NoOccurrenceWithout(body, GroceryMarker, 3);
    ReplaceAtStart(GroceryMarker, body, []);
    ReplaceAbsent(body, GroceryMarker, []);
    assert [] + body == body && Pad + list + [] == body;
    TrimPadded(Pad, list, []);
  }

  /** The reply's markers and padding add no separator to a day block. */
  lemma DayBlockHasNoSeparator(day: string, workout: string, meal: string)
    requires '|' !in day && '|' !in workout && '|' !in meal
    ensures '|' !in Pad + DayText(day, workout, meal) + Pad
  {
    assert '|' !in DayMarker;
    assert '|' !in WorkoutMarker;
    assert '|' !in MealMarker;
    assert '|' !in Indent;
    assert '|' !in Pad;
    var head := DayMarker + " " + day + "\n" + Indent;
    assert '|' !in head;
    var tail := WorkoutMarker + " " + workout + "\n" + Indent + MealMarker + " " + meal;
    assert '|' !in tail;
  }

  // The character facts of the literals, one piece per lemma so that each
  // proof looks at one short literal.

  lemma MondayFields()
    ensures PlainLabel("Monday") && PlainField(MondayWorkout) && PlainField(MondayMeal)
    ensures 'M' !in MondayWorkout
  {
    PushLineChars(); CoreLineChars(); OatsLineChars(); LentilsLineChars();
  }

  lemma TuesdayFields()
    ensures PlainLabel("Tuesday") && PlainField(TuesdayWorkout) && PlainField(TuesdayMeal)
    ensures 'M' !in TuesdayWorkout
  {
    LegsLineChars(); CardioLineChars(); EggsLineChars(); RiceLineChars();
  }

  lemma GroceryListFields()
    ensures PlainField(GroceryList) && 'C' !in GroceryList
  {
    ListHeadingChars();
    DozenEggsChars();
    KiloRiceChars();
    HalfKiloOatsChars();
    BudgetHeadingChars();
    RupeeBudgetChars();
    RupeeNoteChars();
    DollarBudgetChars();
    DollarNoteChars();
  }

  lemma PushLineChars() ensures 'M' !in PushLine && '|' !in PushLine {}

  lemma CoreLineChars() ensures 'M' !in CoreLine && '|' !in CoreLine {}

  lemma OatsLineChars() ensures '|' !in OatsLine {}

  lemma LentilsLineChars() ensures '|' !in LentilsLine {}

  lemma LegsLineChars() ensures 'M' !in LegsLine && '|' !in LegsLine {}

  lemma CardioLineChars() ensures 'M' !in CardioLine && '|' !in CardioLine {}

  lemma EggsLineChars() ensures '|' !in EggsLine {}

  lemma RiceLineChars() ensures '|' !in RiceLine {}

  lemma ListHeadingChars() ensures 'C' !in ListHeading && '|' !in ListHeading {}

  lemma DozenEggsChars() ensures 'C' !in DozenEggs && '|' !in DozenEggs {}

  lemma KiloRiceChars() ensures 'C' !in KiloRice && '|' !in KiloRice {}

  lemma HalfKiloOatsChars() ensures 'C' !in HalfKiloOats && '|' !in HalfKiloOats {}

  lemma BudgetHeadingChars() ensures 'C' !in BudgetHeading && '|' !in BudgetHeading {}

  lemma RupeeBudgetChars() ensures 'C' !in RupeeBudget && '|' !in RupeeBudget {}

  lemma RupeeNoteChars() ensures 'C' !in RupeeNote && '|' !in RupeeNote {}

  lemma DollarBudgetChars() ensures 'C' !in DollarBudget && '|' !in DollarBudget {}

  lemma DollarNoteChars() ensures 'C' !in DollarNote && '|' !in DollarNote {}
}
