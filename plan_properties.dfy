/** What parse_ai_response promises about its result: one record per day block
    in block order, the grocery text of the last GROCERY block or the fallback,
    the field rules of a day block, and indifference to whitespace around
    blocks. */
module PlanProperties {
  import opened Text
  import opened PlanParser

  /** The indices of the blocks the parser reads as days, in increasing order. */
  function DayBlockIndices(blocks: seq<string>): (idx: seq<nat>)
    ensures forall k :: 0 <= k < |idx| ==> idx[k] < |blocks| && IsDayBlock(blocks[idx[k]])
    ensures forall k, l :: 0 <= k < l < |idx| ==> idx[k] < idx[l]
    ensures forall j :: 0 <= j < |blocks| && IsDayBlock(blocks[j]) ==> j in idx
  {
    if blocks == [] then []
    else
      var n := |blocks| - 1;
      var prior := DayBlockIndices(blocks[..n]);
      prior + (if IsDayBlock(blocks[n]) then [n] else [])
  }

  /** Day count: exactly one record per day block. No day block is dropped:
      the `except` clause is never reached. */
  lemma {:induction false} DayCount(blocks: seq<string>)
    ensures |DayPlans(blocks)| == |DayBlockIndices(blocks)|
  {
    if blocks != [] {
      DayCount(blocks[..|blocks| - 1]);
    }
  }

  /** Day order: the k-th record is the record of the k-th day block. */
  lemma {:induction false} DayPlansFollowDayBlocks(blocks: seq<string>)
    ensures |DayPlans(blocks)| == |DayBlockIndices(blocks)|
    ensures forall k :: 0 <= k < |DayPlans(blocks)| ==>
      ParseDayBlock(Trim(blocks[DayBlockIndices(blocks)[k]])) == Some(DayPlans(blocks)[k])
  {
    DayCount(blocks);
    if blocks != [] {
      var n := |blocks| - 1;
      var prior := blocks[..n];
      DayPlansFollowDayBlocks(prior);
      var idx := DayBlockIndices(prior);
      if IsDayBlock(blocks[n]) {
        assert DayBlockIndices(blocks) == idx + [n];
        assert DayPlans(blocks) == DayPlans(prior) + [ParseDayBlock(Trim(blocks[n])).value];
      } else {
        assert DayBlockIndices(blocks) == idx && DayPlans(blocks) == DayPlans(prior);
      }
    }
  }

  /** A block never counts both as a day and as the grocery list. */
  lemma DayAndGroceryExclusive(block: string)
    ensures !(IsDayBlock(block) && IsGroceryBlock(block))
  {
    var t := Trim(block);
    if |t| >= |GroceryMarker| {
      assert t[..|DayMarker|][0] == t[..|GroceryMarker|][0];
    }
  }

  /** Without a GROCERY block the grocery text is the fallback. */
  lemma {:induction false} GroceryFallback(blocks: seq<string>)
    requires forall j :: 0 <= j < |blocks| ==> !IsGroceryBlock(blocks[j])
    ensures LastGroceryBlock(blocks) == None
    ensures GrocerySection(blocks) == NoGroceryList
  {
    if blocks != [] {
      GroceryFallback(blocks[..|blocks| - 1]);
    }
  }

  /** Otherwise the last GROCERY block wins: its text with every "GROCERY"
      removed, stripped. */
  lemma GroceryLastWins(blocks: seq<string>, j: nat)
    requires j < |blocks| && IsGroceryBlock(blocks[j])
    requires forall l :: j < l < |blocks| ==> !IsGroceryBlock(blocks[l])
    ensures GrocerySection(blocks) == GroceryText(Trim(blocks[j]))
  {
    LastGroceryBlockIndex(blocks, j);
  }

  /** The last GROCERY block is the one the grocery text is taken from. */
  lemma {:induction false} LastGroceryBlockIndex(blocks: seq<string>, j: nat)
    requires j < |blocks| && IsGroceryBlock(blocks[j])
    requires forall l :: j < l < |blocks| ==> !IsGroceryBlock(blocks[l])
    ensures LastGroceryBlock(blocks) == Some(j)
    decreases |blocks|, 1
  {
    if j < |blocks| - 1 {
      LastGroceryBlockBeforeLast(blocks, j);
    } else {
      DayAndGroceryExclusive(blocks[j]);
    }
  }

  /** The case of a GROCERY block followed by others: the last block is
      passed over and the search goes on in the blocks before it. */
  lemma {:induction false} LastGroceryBlockBeforeLast(blocks: seq<string>, j: nat)
    requires j < |blocks| - 1 && IsGroceryBlock(blocks[j])
    requires forall l :: j < l < |blocks| ==> !IsGroceryBlock(blocks[l])
    ensures LastGroceryBlock(blocks) == Some(j)
    decreases |blocks|, 0
  {
    var n := |blocks| - 1;
    LastGroceryBlockSkips(blocks);
    LastGroceryBlockIndex(blocks[..n], j);
  }

  /** A last block that is not a GROCERY block is passed over. */
  lemma LastGroceryBlockSkips(blocks: seq<string>)
    requires blocks != [] && !IsGroceryBlock(blocks[|blocks| - 1])
    ensures LastGroceryBlock(blocks) == LastGroceryBlock(blocks[..|blocks| - 1])
  {
  }

  /** Whitespace around blocks does not matter: blocks that strip to the same
      texts give the same records and the same grocery text. */
  lemma BlockPaddingIgnored(blocks: seq<string>, padded: seq<string>)
    requires |padded| == |blocks|
    requires forall k :: 0 <= k < |blocks| ==> Trim(padded[k]) == Trim(blocks[k])
    ensures DayPlans(padded) == DayPlans(blocks)
    ensures GrocerySection(padded) == GrocerySection(blocks)
  {
    PaddingKeepsDays(blocks, padded);
    PaddingKeepsGroceryBlock(blocks, padded);
  }

  lemma {:induction false} PaddingKeepsDays(blocks: seq<string>, padded: seq<string>)
    requires |padded| == |blocks|
    requires forall k :: 0 <= k < |blocks| ==> Trim(padded[k]) == Trim(blocks[k])
    ensures DayPlans(padded) == DayPlans(blocks)
  {
    if blocks != [] {
      var n := |blocks| - 1;
      assert forall k :: 0 <= k < n ==> blocks[..n][k] == blocks[k] && padded[..n][k] == padded[k];
      PaddingKeepsDays(blocks[..n], padded[..n]);
    }
  }

  lemma {:induction false} PaddingKeepsGroceryBlock(blocks: seq<string>, padded: seq<string>)
    requires |padded| == |blocks|
    requires forall k :: 0 <= k < |blocks| ==> Trim(padded[k]) == Trim(blocks[k])
    ensures LastGroceryBlock(padded) == LastGroceryBlock(blocks)
  {
    if blocks != [] {
      var n := |blocks| - 1;
      assert forall k :: 0 <= k < n ==> blocks[..n][k] == blocks[k] && padded[..n][k] == padded[k];
      PaddingKeepsGroceryBlock(blocks[..n], padded[..n]);
    }
  }

  /** The day label of a block that starts with "Day:" is the text after the
      whitespace that follows the marker, up to the next newline, trailing
      whitespace included. An empty day is accepted only at the end of the
      block: otherwise the newline is skipped as whitespace too. */
  lemma DayLabelIsRestOfLine(ws: string, day: string, rest: string)
    requires AllSpace(ws) && '\n' !in day
    requires day != [] ==> !IsSpace(day[0])
    requires day == [] ==> rest == []
    requires rest != [] ==> rest[0] == '\n'
    ensures DayLabel(DayMarker + ws + day + rest) == Some(day)
  {
    var s := DayMarker + ws + day + rest;
    var k, e := |DayMarker| + |ws|, |DayMarker| + |ws| + |day|;
    assert OccursAt(s, DayMarker, 0);
    assert forall x :: |DayMarker| <= x < k ==> s[x] == ws[x - |DayMarker|];
    assert forall x :: k <= x < e ==> s[x] == day[x - k];
    assert e < |s| ==> s[e] == rest[0];
    SpacedLineUnique(s, |DayMarker|, k, e);
    assert s[k..e] == day;
  }

  /** The whitespace skip crosses newlines: when the "Day:" line is blank, the
      day is the next line. */
  lemma BlankDayLineTakesNextLine()
    ensures DayLabel("Day:\n  Workout: Run\nMeal: Rice") == Some("Workout: Run")
  {
    assert "Day:\n  Workout: Run\nMeal: Rice" == DayMarker + "\n  " + "Workout: Run" + "\nMeal: Rice";
    DayLabelIsRestOfLine("\n  ", "Workout: Run", "\nMeal: Rice");
  }

  /** A well-formed day block, "Day:" day, then "Workout:" and "Meal:" each on
      a line of their own, yields the day, the stripped workout text and the
      stripped meal text. The day must not itself hold a marker, and the
      workout text must not hold "Meal:". */
  lemma WellFormedDayBlock(ws0: string, day: string, ws1: string, workout: string,
                           ws2: string, meal: string)
    requires AllSpace(ws0) && AllSpace(ws1) && AllSpace(ws2)
    requires day != [] && !IsSpace(day[0]) && '\n' !in day
    requires NoOccurrence(day, WorkoutMarker) && NoOccurrence(day, MealMarker)
    requires NoOccurrence(workout, MealMarker)
    ensures ParseDayBlock((DayMarker + ws0 + day + "\n" + ws1)
                          + (WorkoutMarker + workout + "\n" + ws2 + MealMarker + meal))
            == Some(DayPlan(day, Trim(workout), Trim(meal)))
  {
    var head := DayMarker + ws0 + day + "\n" + ws1;
    var tail := WorkoutMarker + workout + "\n" + ws2 + MealMarker + meal;
    DayLineOfBlock(ws0, day, ws1, tail);
    HeadHoldsNoMarker(DayMarker, ws0, day, ws1, tail, WorkoutMarker);
    HeadHoldsNoMarker(DayMarker, ws0, day, ws1, tail, MealMarker);
    assert tail[..|WorkoutMarker|] == WorkoutMarker;
    var q := TailLayout(WorkoutMarker, workout, ws2, MealMarker, meal);
    MarkersAfterHead(head, tail, WorkoutMarker, MealMarker, q);
    FieldsAfterHead(head, tail, |WorkoutMarker|, q, |MealMarker|, workout + ("\n" + ws2), meal);
    DayBlockFields(head + tail, |head|, q, day, workout, "\n" + ws2, meal);
  }

  /** The day line of a well-formed day block gives its day. */
  lemma DayLineOfBlock(ws0: string, day: string, ws1: string, tail: string)
    requires AllSpace(ws0) && AllSpace(ws1)
    requires day != [] && !IsSpace(day[0]) && '\n' !in day
    ensures DayLabel(DayMarker + ws0 + day + "\n" + ws1 + tail) == Some(day)
  {
    assert DayMarker + ws0 + day + "\n" + ws1 + tail == DayMarker + ws0 + day + ("\n" + ws1 + tail);
    DayLabelIsRestOfLine(ws0, day, "\n" + ws1 + tail);
  }

  /** The record of a block whose markers and field texts are known. */
  lemma DayBlockFields(s: string, p: nat, q: nat, day: string, workout: string, gap: string,
                       meal: string)
    requires DayLabel(s) == Some(day)
    requires MarkersAt(s, p, q, WorkoutMarker, MealMarker)
    requires FieldsAt(s, p, |WorkoutMarker|, q, |MealMarker|, workout + gap, meal) && AllSpace(gap)
    ensures ParseDayBlock(s) == Some(DayPlan(day, Trim(workout), Trim(meal)))
  {
    WorkoutTextBetweenMarkers(s, p, p + q);
    TrimDropsTrailing(workout, gap);
    MealTextAfterMarker(s, p + q);
  }

  // The layout of a day block, for any three markers that cannot be confused
  // with one another or with whitespace: the first marker, whitespace, a line,
  // whitespace, the second marker, a text, a newline, whitespace, the third
  // marker and a last text.

  /** s holds wm at p and its first mm at p + q, which is also the first mm
      after wm. */
  ghost predicate MarkersAt(s: string, p: nat, q: nat, wm: string, mm: string)
  {
    && Find(s, wm, 0) == Some(p)
    && Find(s, mm, 0) == Some(p + q)
    && Find(s, mm, p + |wm|) == Some(p + q)
  }

  /** s holds between at [p + a, p + q) and after from p + q + c on. */
  ghost predicate FieldsAt(s: string, p: nat, a: nat, q: nat, c: nat, between: string, after: string)
  {
    && a <= q && p + q + c <= |s|
    && s[p + a..p + q] == between
    && s[p + q + c..] == after
  }

  /** The fields of a tail are found in head + tail, shifted by |head|. */
  lemma FieldsAfterHead(head: string, tail: string, a: nat, q: nat, c: nat,
                        between: string, after: string)
    requires a <= q && q + c <= |tail|
    requires tail[a..q] == between && tail[q + c..] == after
    ensures FieldsAt(head + tail, |head|, a, q, c, between, after)
  {
    SliceInTail(head, tail, a, q);
    var b := q + c;
    SliceInTail(head, tail, b, b);
    assert |head| + q + c == |head| + b;
  }

  /** Markers that do not start in the head are found where they are found
      in the tail, shifted by the head's length. */
  lemma MarkersAfterHead(head: string, tail: string, wm: string, mm: string, q: nat)
    requires AbsentBetween(head + tail, wm, 0, |head|) && AbsentBetween(head + tail, mm, 0, |head|)
    requires OccursAt(tail, wm, 0)
    requires Find(tail, mm, 0) == Some(q) && |wm| <= q
    ensures MarkersAt(head + tail, |head|, q, wm, mm)
  {
    FindFirst(tail, wm, 0, 0);
    FoundAfterHead(head, tail, wm, 0);
    FoundAfterHead(head, tail, mm, q);
    FindLater(head + tail, mm, 0, |head| + |wm|);
  }

  /** Neither later marker starts in the first line and the whitespace after it. */
  lemma HeadHoldsNoMarker(dm: string, ws0: string, day: string, ws1: string, tail: string,
                          pat: string)
    requires AllSpace(ws0) && AllSpace(ws1) && '\n' !in day
    requires pat != [] && !IsSpace(pat[0]) && pat[0] !in dm && '\n' !in pat
    requires NoOccurrence(day, pat)
    ensures AbsentBetween(dm + ws0 + day + "\n" + ws1 + tail, pat, 0,
                          |dm + ws0 + day + "\n" + ws1|)
  {
    var s := dm + ws0 + day + "\n" + ws1 + tail;
    var a1 := |dm| + |ws0|;
    var a2 := a1 + |day|;
    var h := a2 + 1 + |ws1|;
    assert s[..|dm|] == dm;
    assert forall x :: |dm| <= x < a1 ==> s[x] == ws0[x - |dm|];
    assert s[a1..a2] == day;
    assert s[a2] == '\n';
    assert forall x :: a2 + 1 <= x < h ==> s[x] == ws1[x - a2 - 1];
    AbsentWithoutFirst(s, pat, 0, |dm|);
    AbsentInSpace(s, pat, |dm|, a1);
    AbsentInPiece(s, pat, a1, a2);
    AbsentInSpace(s, pat, a2, h);
  }

  /** In wm workout, newline, whitespace, mm meal, the first mm is the one on
      its own line. */
  lemma TailLayout(wm: string, workout: string, ws2: string, mm: string, meal: string)
    returns (q: nat)
    requires mm != [] && !IsSpace(mm[0]) && '\n' !in mm && mm[0] !in wm
    requires AllSpace(ws2) && NoOccurrence(workout, mm)
    ensures var tail := wm + workout + "\n" + ws2 + mm + meal;
      && |wm| <= q && q + |mm| <= |tail|
      && Find(tail, mm, 0) == Some(q)
      && tail[|wm|..q] == workout + ("\n" + ws2)
      && tail[q + |mm|..] == meal
  {
    var t := wm + workout + "\n" + ws2 + mm + meal;
    var b0 := |wm|;
    var b1 := b0 + |workout|;
    q := b1 + 1 + |ws2|;
    assert t[..b0] == wm;
    assert t[b0..b1] == workout;
    assert t[b1] == '\n';
    assert forall x :: b1 + 1 <= x < q ==> t[x] == ws2[x - b1 - 1];
    assert t[q..q + |mm|] == mm;
    assert t[q + |mm|..] == meal;
    var gap := "\n" + ws2;
    assert t[b1..q] == gap by {
      assert forall x :: b1 <= x < q ==> t[x] == gap[x - b1];
    }
    assert t[b0..q] == t[b0..b1] + t[b1..q];
    AbsentWithoutFirst(t, mm, 0, b0);
    AbsentInPiece(t, mm, b0, b1);
    AbsentInSpace(t, mm, b1, q);
    FindFirst(t, mm, 0, q);
  }

  /** A reply without "|||" that, stripped, starts with neither "Day:" nor
      "GROCERY" yields no records and the fallback grocery text: the
      format-error case of the page. */
  lemma NoMarkersNoPlan(text: string)
    requires NoOccurrence(text, Separator)
    requires !StartsWith(Trim(text), DayMarker) && !StartsWith(Trim(text), GroceryMarker)
    ensures Parse(text) == ParseResult([], NoGroceryList)
  {
    FindFound(text, Separator, 0);
    assert Find(text, Separator, 0).None?;
    assert Split(text, Separator) == [text];
    assert [text][..0] == [];
    assert DayPlans([text]) == [];
    assert LastGroceryBlock([text]) == None;
  }

  /** The error text of the live requester, "Error: " and the exception's
      message, parses to no records and the fallback grocery text. */
  lemma ErrorSentinelHasNoDays(message: string)
    requires NoOccurrence(message, Separator)
    ensures Parse("Error: " + message) == ParseResult([], NoGroceryList)
  {
    var text := "Error: " + message;
    AbsentWithoutFirst(text, Separator, 0, 7);
    assert text[7..] == message;
    forall j: nat | 7 <= j ensures !OccursAt(text, Separator, j) {
      if j + |Separator| <= |text| {
        assert !OccursAt(message, Separator, j - 7);
        assert text[j..j + |Separator|] == message[j - 7..j - 7 + |Separator|];
      }
    }
    TrimKeepsFirst(text);
    var t := Trim(text);
    assert t[0] == 'E';
    if |t| >= |GroceryMarker| {
      assert t[..|DayMarker|][0] == 'E' && t[..|GroceryMarker|][0] == 'E';
    }
    NoMarkersNoPlan(text);
  }
}
