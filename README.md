# AI fitness planner: the plan parser, the demo reply and the grocery card

The app asks a language model for a weekly workout and meal plan. The reply
is free text: blocks joined by `|||`. A block that starts with `Day:` holds
one day, with `Workout:` and `Meal:` sections. A block that starts with
`GROCERY` holds the shopping list. This project models three parts of `app.py`.

- **The plan parser** (`parse_ai_response`). It splits the reply on `|||` and
  strips each block. A `Day:` block becomes a record of day label, workout
  text and meal text. A `GROCERY` block replaces the grocery text. Every other
  block is ignored. The Python loop is modelled as the method
  `PlanParser.ParseAiResponse` and proved equal to the functional
  specification `PlanParser.Parse`. The lemmas in `PlanProperties` then prove
  what the parser promises about that specification:
  - one record per day block, in block order;
  - the last `GROCERY` block wins, and the fallback text is used when there is none;
  - a day block is never read as a grocery block;
  - whitespace around a block makes no difference;
  - the field rules of a well-formed day block;
  - a reply with no markers, such as the `Error: ...` text the live request
    returns, gives no days.
- **The demo reply** (`generate_plan_mock`). It is a fixed text, rebuilt
  exactly in `MockPlan.GeneratePlanMock`. `MockPlan.MockReplyParses` proves
  what parsing it gives: the Monday and Tuesday records, in that order, and
  the grocery list.
- **The grocery card**. Five substitutions turn the grocery text into HTML:
  headings, bold spans, list items, a leading item, then every line break is
  deleted. The first three are recursive scanning functions in
  `GroceryFormat` (`Headings`, `Bold`, `ListItems`), the fourth is
  `LeadingItem`, which looks only at the start of the text, and the fifth is
  `Text.ReplaceAll`. Each regular expression keeps Python's `re.sub`
  semantics:
  - the scan goes left to right and matches do not overlap;
  - `\s*` also skips line breaks;
  - `.` does not match a line break;
  - `.*?` takes the nearest close.

The string primitives these are built on are in `Text`:
- `str.split`, `str.strip`, `str.startswith` and `str.replace`;
- the regular-expression pieces `\s*(.*)` and a literal search.

Characters are Unicode scalar values. Whitespace is the full set that
`str.isspace` and `\s` accept.

Three behaviours of the code a reader may not expect:
- **`GROCERY` removal.** `block.replace("GROCERY", "")` removes every
  occurrence of the word, not just the prefix (`PlanParser.GroceryText`).
- **Blank `Day:` line.** After `Day:`, the pattern `\s*` crosses line breaks.
  So when the `Day:` line is blank, the label is the next non-blank line
  (`PlanProperties.BlankDayLineTakesNextLine`).
- **`Workout:` without a later `Meal:`.** The workout is `"Rest"` when no
  `Meal:` follows the first `Workout:`, even though `Workout:` is present
  (`PlanParser.WorkoutTextWithoutMeal`).

An observation about the demo reply: its list lines are indented by four
spaces, and the list-item rule `\n\*` needs the `*` right after the line
break. `GroceryFormat.IndentedItemKept` proves the general fact that a line
indented in this way is not turned into an item, so these lines would show as
`* ...` text in the card. The model proves no lemma over the demo's grocery
text itself.

## Model

| member | source | states |
|---|---|---|
| PlanParser.ParseAiResponse | app.py:110-148 | The loop over the split blocks returns exactly the records and grocery text of the functional parse. The invariant says that after i blocks, the days are those of the first i blocks and the grocery text is theirs. |
| PlanParser.Parse | app.py:110-148 | The functional parse gives at most one record per block. DayCount, DayPlansFollowDayBlocks, GroceryFallback and GroceryLastWins state its records and grocery text in full. |
| PlanParser.DayPlans | app.py:121-143 | The records appended after reading some blocks number at most those blocks. DayPlansFollowDayBlocks states which they are. |
| PlanParser.GroceryText | app.py:146 | The grocery text of a block is stripped: it neither starts nor ends with whitespace. Every `GROCERY` is removed in one left-to-right pass, as `Text.ReplaceAllIsJoinSplit` states for `str.replace` on all inputs. |
| PlanParser.GrocerySectionStep | app.py:145-146 | One loop step on the grocery text. It is overwritten with the block's text when the stripped block starts with `GROCERY` and not with `Day:`. Otherwise it keeps its value. |
| PlanParser.DayLabel | app.py:127 | `Day:\s*(.*)` has a label exactly when the block contains `Day:`. The label never holds a line break and never starts with whitespace. |
| PlanParser.ParseDayBlock | app.py:123-143 | A record exists exactly when `Day:` occurs. A stripped block that starts with `Day:` always gives a record, so the `except` branch is never taken for it. |
| PlanParser.WorkoutText | app.py:130-131 | The workout is `"Rest"` when the block has no `Workout:`. |
| PlanParser.WorkoutTextBetweenMarkers | app.py:130-131 | The workout is the stripped text between the first `Workout:` and the first `Meal:` after it. |
| PlanParser.WorkoutTextWithoutMeal | app.py:130-131 | With `Workout:` but no later `Meal:`, the lookahead fails and the workout is `"Rest"`. |
| PlanParser.SpaceHoldsNoMeal | app.py:130 | Whitespace skipped by `\s*` cannot hide the start of `Meal:`. Searching from before or after it finds the same `Meal:`. |
| PlanParser.SpacePrefixIgnored | app.py:130-131 | Stripping the group makes the whitespace `\s*` consumed irrelevant. |
| PlanParser.MealText | app.py:134-135 | The meal is `"Standard Diet"` when the block has no `Meal:`. |
| PlanParser.MealTextAfterMarker | app.py:134-135 | The meal is the stripped rest of the block after the first `Meal:`, later markers included. |
| PlanParser.GrocerySection | app.py:116-146 | The grocery text after the loop is stripped at both ends, fallback included. GroceryFallback and LastGroceryBlockIndex state which block it comes from. |
| PlanParser.IsDayBlock | app.py:122-123 | A block read as a day has `Day:` at the start of its stripped text, where the label search finds it. DayAndGroceryExclusive states that it is never also read as the grocery list. |
| PlanParser.IsGroceryBlock | app.py:145 | A block read as the grocery list has `GROCERY` at the start of its stripped text, the first occurrence the replace removes. |
| PlanParser.LastGroceryBlock | app.py:145-146 | The block whose text the grocery text ends up holding, when there is one, is a block of the reply. |
| PlanProperties.DayBlockIndices | app.py:121-123 | The indices of the blocks read as days are increasing. They are all such blocks and only those. |
| PlanProperties.DayCount | app.py:121-143 | There are as many records as blocks whose stripped text starts with `Day:`. |
| PlanProperties.DayPlansFollowDayBlocks | app.py:121-143 | The k-th record is the parse of the k-th day block: same count, same order. |
| PlanProperties.DayAndGroceryExclusive | app.py:123-145 | No block is read both as a day and as the grocery list. |
| PlanProperties.GroceryFallback | app.py:116-146 | With no `GROCERY` block, the grocery text is `"No grocery list generated."`. |
| PlanProperties.GroceryLastWins | app.py:145-146 | With `GROCERY` blocks, the grocery text comes from the last one, with `GROCERY` removed and stripped. |
| PlanProperties.LastGroceryBlockIndex | app.py:145-146 | The last `GROCERY` block is the one whose text is kept. |
| PlanProperties.LastGroceryBlockBeforeLast | app.py:145-146 | A later non-`GROCERY` block does not change which block is kept. |
| PlanProperties.LastGroceryBlockSkips | app.py:145-146 | A final block that is not a `GROCERY` block leaves the kept block as it was. |
| PlanProperties.BlockPaddingIgnored | app.py:122 | Blocks that strip to the same texts give the same records and the same grocery text. |
| PlanProperties.PaddingKeepsDays | app.py:122 | Whitespace around blocks does not change the records. |
| PlanProperties.PaddingKeepsGroceryBlock | app.py:122 | Whitespace around blocks does not change which `GROCERY` block is kept. |
| PlanProperties.DayLabelIsRestOfLine | app.py:127 | After `Day:` and whitespace, the label is the rest of the line, up to the next line break or the end. |
| PlanProperties.BlankDayLineTakesNextLine | app.py:127 | A blank `Day:` line takes the next line as the label. |
| PlanProperties.DayLineOfBlock | app.py:127 | In a block laid out as `Day: <label>` on its own line, the label is read back. |
| PlanProperties.WellFormedDayBlock | app.py:123-141 | A `Day:` / `Workout:` / `Meal:` block parses into its label and its stripped workout and meal texts. |
| PlanProperties.DayBlockFields | app.py:127-141 | Given where the markers lie, the record holds the label, the stripped text between the markers and the stripped text after `Meal:`. |
| PlanProperties.NoMarkersNoPlan | app.py:119-148 | A reply without `\|\|\|` whose stripped text starts with neither marker gives no records and the fallback grocery text. |
| PlanProperties.ErrorSentinelHasNoDays | app.py:119-148 | An `Error: ` text whose message holds no `\|\|\|` gives no records and the fallback grocery text. A failed request returns such a text (app.py:221) when its message has no `\|\|\|`. |
| MockPlan.GeneratePlanMock | app.py:150-170 | The demo reply splits into three blocks: the Monday and Tuesday day blocks, then the `GROCERY` block, which is not a day block. MockReplyParses states what the parser makes of it. |
| MockPlan.MockBlocks | app.py:153-170 | The demo text splits on `\|\|\|` into its three blocks, read as two days and the grocery list. |
| MockPlan.MockReplyParses | app.py:153-170 | The demo reply parses into the Monday and Tuesday records, in that order, and the shopping list. The grocery text is not the fallback. |
| MockPlan.MockReplyShown | app.py:153-170 | The demo reply gives two days labelled Monday and Tuesday. Its grocery text starts with `#### 🛒 Shopping List`. |
| MockPlan.GroceryListOpens | app.py:163 | The demo grocery text opens with the shopping-list heading. |
| MockPlan.MondayBlockReads | app.py:154-156 | The Monday block is a day block and parses into its record. |
| MockPlan.TuesdayBlockReads | app.py:158-160 | The Tuesday block is a day block and parses into its record. |
| MockPlan.GroceryBlockReads | app.py:162-169 | The last block is read as the grocery list and not as a day, and its text is the list. |
| MockPlan.ThreeBlocks | app.py:119-148 | Two day blocks and a `GROCERY` block, joined by `\|\|\|`, parse into the two records and the grocery text. |
| MockPlan.TwoDaysThenGrocery | app.py:121-143 | Two day blocks followed by another block give exactly the two records. |
| MockPlan.BlockThenRest | app.py:119 | A block with no `\|`, then `\|\|\|`: the block is the first piece of the split. |
| MockPlan.SplitThree | app.py:119 | Three blocks without a `\|` inside split back into the three. |
| MockPlan.PaddedDay | app.py:122-141 | A day block laid out as in the demo, with its surrounding line breaks and indentation, parses into its fields. |
| MockPlan.DayTextParses | app.py:127-141 | The stripped demo day block gives its label, workout and meal. |
| MockPlan.PaddedGrocery | app.py:122-146 | The demo's `GROCERY` block is read as the list, and its text is the list below the heading. |
| MockPlan.GroceryBody | app.py:146 | Removing `GROCERY` and stripping leaves the list. |
| GroceryFormat.FormatGrocery | app.py:328-341 | The five steps in source order. The formatted grocery text holds no line break. The card's f-string around it is not modelled. |
| GroceryFormat.Headings | app.py:328 | Step 1 changes the text exactly when it holds `####`. HeadingsNeedMarker and HeadingLine state what each match becomes. |
| GroceryFormat.Bold | app.py:331 | Step 2 leaves a line break in the text exactly when there was one, because a bold span never crosses a line. BoldSpan, UnclosedBoldKept, BoldAcrossLineKept and BoldSingleStar state what is and is not a match. |
| GroceryFormat.ListItems | app.py:335 | Step 3 changes the text exactly when a line break is directly followed by `*`. ItemLine and IndentedItemKept state what is and is not a match. |
| GroceryFormat.LeadingItem | app.py:338 | Step 4 changes the text exactly when it starts with `*`. LeadingItemLine states what the first item becomes. |
| GroceryFormat.PlainTextUnchanged | app.py:328-341 | Text with no `#`, `*` or line break is shown unchanged. |
| GroceryFormat.FallbackUnchanged | app.py:328-341 | The fallback `"No grocery list generated."` is shown unchanged. |
| GroceryFormat.HeadingsNeedMarker | app.py:328 | The heading rule leaves text without `#` unchanged. |
| GroceryFormat.HeadingLine | app.py:328 | `####`, whitespace and a line become that line inside the h4 template. Text before it is kept and the rest is rewritten in turn. |
| GroceryFormat.BoldNeedsMarker | app.py:331 | The bold rule leaves text without `*` unchanged. |
| GroceryFormat.BoldSpan | app.py:331 | `**t**` on one line becomes t inside the strong template. |
| GroceryFormat.UnclosedBoldKept | app.py:331 | An opening `**` with no closing one is left as it is. |
| GroceryFormat.BoldAcrossLineKept | app.py:331 | An opening `**` whose nearest closing `**` lies after a line break is no match, and the text is left as it is. |
| GroceryFormat.StrayThenUnclosed | app.py:331 | A stray `*`, a line, then an opening `**` with no close: nothing is rewritten. |
| GroceryFormat.BoldSingleStar | app.py:331 | A single `*` is not a bold span. |
| GroceryFormat.ListItemsNeedMarker | app.py:335 | The list-item rule leaves text without a line break unchanged. |
| GroceryFormat.ItemLine | app.py:335 | A line break, `*`, whitespace and a line become that line inside the item template. |
| GroceryFormat.IndentedItemKept | app.py:335 | A `*` item indented after its line break is not rewritten. |
| GroceryFormat.LeadingItemLine | app.py:338 | A text that starts with `*` has its first line turned into an item, and the rest is kept. |
| GroceryFormat.OneLineKept | app.py:338-341 | The last two steps leave a text that starts with `<` and has no line break unchanged. |
| GroceryFormat.HeadingThenItem | app.py:328-341 | `#### heading` followed by the line `* item` becomes the h4 heading followed by one item, on one line. |
| Text.Split | app.py:119 | `str.split` gives at least one piece, and no piece contains the separator. |
| Text.JoinSplit | app.py:119 | Joining the pieces with the separator gives the reply back: splitting loses and reorders nothing. |
| Text.SplitAtFirstSep | app.py:119 | `str.split` cuts at the leftmost occurrence of the separator. The first piece is everything before it, even when it holds part of the separator, such as a single `\|`. |
| Text.SplitWithoutSep | app.py:119 | A text in which the separator does not occur is one piece, whatever other characters it holds. |
| Text.Trim | app.py:122 | A stripped text neither starts nor ends with whitespace. |
| Text.TrimPadded | app.py:122 | Stripping removes exactly the whitespace around a text that has none at its ends. |
| Text.TrimIgnoresPadding | app.py:122 | Extra whitespace around a text does not change what it strips to. |
| Text.SpacedLineUnique | app.py:127 | The `\s*(.*)` match is the maximal whitespace run, then the line up to the next line break. |
| Text.Find | app.py:127-134 | The literal search reports an index at or after its start, with the whole pattern inside the text. FindFound and FindMisses state that it is the leftmost occurrence. |
| Text.SpacedLine | app.py:127 | The `\s*(.*)` span: whitespace, line breaks included, up to a non-whitespace character, then the line up to the next line break or the end. SpacedLineUnique states that this span is the only one. |
| Text.FindFound | app.py:127-134 | A literal search reports an occurrence. |
| Text.FindMisses | app.py:127-134 | A literal search reports the leftmost occurrence, or none when there is no occurrence. |
| Text.ReplaceAll | app.py:146 | `str.replace` with a replacement no longer than the pattern never makes the text longer. ReplaceAllIsJoinSplit states what it gives in full. |
| Text.ReplaceAllIsJoinSplit | app.py:146 | `str.replace` equals splitting on the pattern and joining with the replacement. |
| Text.ReplaceAtStart | app.py:146 | A leading occurrence of the pattern is replaced first. |
| Text.ReplaceAbsent | app.py:146 | `str.replace` leaves a text without the pattern unchanged. |
| Text.RemoveCharLeavesNone | app.py:341 | Replacing a character with the empty text leaves none of it. |

## Left out

- The page itself: the Streamlit page configuration, CSS, sidebar widgets,
  animation loading, columns, spinners and the day cards (app.py:1-106,
  223-349 apart from the grocery rewrite). They only draw the result.
- `generate_plan_real`: the prompt text, the HTTP call to the text-generation
  endpoint and its API key. Its only output the model uses is the
  `Error: ...` text of a failed request, which appears as a parameter of
  `PlanProperties.ErrorSentinelHasNoDays`.
- `generate_plan_mock`'s one-and-a-half-second sleep. The profile argument is
  not a parameter, because the reply does not depend on it.
- The f-string that places the formatted text inside the card's `div`
  (app.py:343-347). It is presentation only.
- Lone surrogate code points, which a Python str can hold. Characters here
  are Unicode scalar values; none of the patterns treats surrogates specially.
- The regular-expression engine in general. Only the seven patterns the core
  uses are modelled, each as its own scanning function.
- `PlanParser.ParseAiResponse` returns a pair, as the source does. The day
  dictionaries are the `DayPlan` datatype.
- `except: continue` is modelled as `ParseDayBlock` returning `None`.
  `PlanParser.ParseDayBlock` proves this cannot happen for a block the loop
  hands it.
