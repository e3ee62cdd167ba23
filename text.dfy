/** String primitives the plan parser and the grocery formatter are built on:
    Python's str.isspace, str.strip, str.startswith, str.split and str.replace,
    and the two regular-expression pieces the source uses over and over,
    `\s*` (skip whitespace, newlines included) and `.*` without DOTALL (take the
    rest of the line). Strings are sequences of Unicode scalar values; a
    Python str can also hold lone surrogates, which no pattern here treats
    specially. */
module Text {

  datatype Option<T> = None | Some(value: T)

  /** Python's str.isspace(), which is also the class `\s` matches in a str pattern. */
  predicate IsSpace(c: char)
  {
    ('\t' <= c <= '\r') || ('\U{1C}' <= c <= ' ') || c == '\U{85}' || c == '\U{A0}'
    || c == '\U{1680}' || ('\U{2000}' <= c <= '\U{200A}') || c == '\U{2028}' || c == '\U{2029}'
    || c == '\U{202F}' || c == '\U{205F}' || c == '\U{3000}'
  }

  /** Every character of s in [i, j) is whitespace. */
  predicate SpaceBetween(s: string, i: nat, j: nat)
  {
    j <= |s| && forall x :: i <= x < j ==> IsSpace(s[x])
  }

  /** No character of s in [i, j) is a newline. */
  predicate LineBetween(s: string, i: nat, j: nat)
  {
    j <= |s| && forall x :: i <= x < j ==> s[x] != '\n'
  }

  predicate AllSpace(s: string)
  {
    SpaceBetween(s, 0, |s|)
  }

  /** s begins with p (str.startswith). */
  predicate StartsWith(s: string, p: string)
  {
    |p| <= |s| && s[..|p|] == p
  }

  /** pat occurs in s at index i. */
  predicate OccursAt(s: string, pat: string, i: nat)
  {
    i + |pat| <= |s| && s[i..i + |pat|] == pat
  }

  ghost predicate NoOccurrence(s: string, pat: string)
  {
    forall j: nat :: !OccursAt(s, pat, j)
  }

  /** A prefix of the front of a text is a prefix of the text. */
  lemma StartsWithPrefix(a: string, b: string, p: string)
    requires StartsWith(a, p)
    ensures StartsWith(a + b, p)
  {
    assert (a + b)[..|p|] == a[..|p|];
  }

  /** The first occurrence of pat in s at or after index from: what a regex
      search for the literal pat, or str.find, reports. */
  function Find(s: string, pat: string, from: nat): (r: Option<nat>)
    ensures r.Some? ==> from <= r.value && r.value + |pat| <= |s|
    decreases |s| - from
  {
    if |s| < from + |pat| then None
    else if OccursAt(s, pat, from) then Some(from)
    else Find(s, pat, from + 1)
  }

  /** What Find reports is an occurrence. */
  lemma {:induction false} FindFound(s: string, pat: string, from: nat)
    ensures Find(s, pat, from).Some? ==> OccursAt(s, pat, Find(s, pat, from).value)
    decreases |s| - from
  {
    if |s| >= from + |pat| && !OccursAt(s, pat, from) {
      FindFound(s, pat, from + 1);
    }
  }

  /** A pattern that occurs nowhere is not found. */
  lemma FindNothing(s: string, pat: string)
    requires NoOccurrence(s, pat)
    ensures Find(s, pat, 0) == None
  {
    FindFound(s, pat, 0);
  }

  /** Find reports the first occurrence: pat starts nowhere between from and
      the index found, nor anywhere from from on when nothing is found. */
  lemma {:induction false} FindMisses(s: string, pat: string, from: nat)
    ensures forall j: nat :: from <= j && (Find(s, pat, from).None? || j < Find(s, pat, from).value)
                             ==> !OccursAt(s, pat, j)
    decreases |s| - from
  {
    if |s| >= from + |pat| && !OccursAt(s, pat, from) {
      FindMisses(s, pat, from + 1);
    }
  }

  /** pat starts nowhere in s in [lo, hi). */
  ghost predicate AbsentBetween(s: string, pat: string, lo: nat, hi: nat)
  {
    forall j: nat :: lo <= j < hi ==> !OccursAt(s, pat, j)
  }

  /** Find passes over a stretch where pat does not start. */
  lemma {:induction false} FindSkips(s: string, pat: string, from: nat, to: nat)
    requires from <= to && AbsentBetween(s, pat, from, to)
    ensures Find(s, pat, from) == Find(s, pat, to)
    decreases (to as int) - (from as int)
  {
    if from < to {
      FindSkips(s, pat, from + 1, to);
    }
  }

  /** An occurrence with none before it (from from on) is the one Find reports. */
  lemma FindFirst(s: string, pat: string, from: nat, i: nat)
    requires from <= i && OccursAt(s, pat, i) && AbsentBetween(s, pat, from, i)
    ensures Find(s, pat, from) == Some(i)
  {
    FindSkips(s, pat, from, i);
  }

  /** Starting the search later, but not past the occurrence found, finds
      the same occurrence. */
  lemma FindLater(s: string, pat: string, from: nat, to: nat)
    requires Find(s, pat, from).Some? && from <= to <= Find(s, pat, from).value
    ensures Find(s, pat, to) == Find(s, pat, from)
  {
    FindMisses(s, pat, from);
    FindSkips(s, pat, from, to);
  }

  /** Searching a suffix of s finds the same occurrences, shifted. */
  lemma {:induction false} FindInSuffix(s: string, pat: string, d: nat, from: nat)
    requires d <= |s|
    ensures Find(s[d..], pat, from).None? ==> Find(s, pat, d + from).None?
    ensures Find(s[d..], pat, from).Some? ==>
              Find(s, pat, d + from) == Some(d + Find(s[d..], pat, from).value)
    decreases |s| - d - from
  {
    var t := s[d..];
    if d + from + |pat| <= |s| {
      assert s[d + from..d + from + |pat|] == t[from..from + |pat|];
      if !OccursAt(s, pat, d + from) {
        FindInSuffix(s, pat, d, from + 1);
      }
    }
  }

  /** An occurrence found in a suffix is found in s, shifted. */
  lemma FoundInSuffix(s: string, pat: string, d: nat, from: nat, i: nat)
    requires d <= |s| && Find(s[d..], pat, from) == Some(i)
    ensures Find(s, pat, d + from) == Some(d + i)
  {
    FindInSuffix(s, pat, d, from);
  }

  /** Slices of the tail of head + tail, located from the start of the whole. */
  lemma SliceInTail(head: string, tail: string, i: nat, j: nat)
    requires i <= j <= |tail|
    ensures (head + tail)[|head| + i..|head| + j] == tail[i..j]
    ensures (head + tail)[|head| + i..] == tail[i..]
  {
  }

  /** An occurrence found in the tail of head + tail is found there, shifted. */
  lemma FoundInTail(head: string, tail: string, pat: string, from: nat, i: nat)
    requires Find(tail, pat, from) == Some(i)
    ensures Find(head + tail, pat, |head| + from) == Some(|head| + i)
  {
    assert (head + tail)[|head|..] == tail;
    FoundInSuffix(head + tail, pat, |head|, from, i);
  }

  /** When pat does not start in the head, its first occurrence in head + tail
      is its first occurrence in the tail, shifted. */
  lemma FoundAfterHead(head: string, tail: string, pat: string, i: nat)
    requires AbsentBetween(head + tail, pat, 0, |head|)
    requires Find(tail, pat, 0) == Some(i)
    ensures Find(head + tail, pat, 0) == Some(|head| + i)
  {
    FoundInTail(head, tail, pat, 0, i);
    FindSkips(head + tail, pat, 0, |head|);
  }

  /** pat cannot start where its first character does not appear. */
  lemma AbsentWithoutFirst(s: string, pat: string, lo: nat, hi: nat)
    requires pat != [] && lo <= hi <= |s| && pat[0] !in s[lo..hi]
    ensures AbsentBetween(s, pat, lo, hi)
  {
    forall j: nat | lo <= j < hi ensures !OccursAt(s, pat, j) {
      assert s[lo..hi][j - lo] == s[j];
      if j + |pat| <= |s| {
        assert s[j..j + |pat|][0] == s[j];
      }
    }
  }

  /** A pattern that begins with a non-whitespace character cannot start in whitespace. */
  lemma AbsentInSpace(s: string, pat: string, lo: nat, hi: nat)
    requires pat != [] && !IsSpace(pat[0]) && lo <= hi && SpaceBetween(s, lo, hi)
    ensures AbsentBetween(s, pat, lo, hi)
  {
    forall j: nat | lo <= j < hi ensures !OccursAt(s, pat, j) {
      if j + |pat| <= |s| {
        assert s[j..j + |pat|][0] == s[j];
      }
    }
  }

  /** A slice of a slice is a slice of the whole. */
  lemma SliceOfSlice(s: string, lo: nat, hi: nat, a: nat, b: nat)
    requires lo <= hi <= |s| && a <= b <= hi - lo
    ensures s[lo..hi][a..b] == s[lo + a..lo + b]
  {
    var t := s[lo..hi];
    assert forall x :: 0 <= x < b - a ==> t[a..b][x] == t[a + x] == s[lo + a + x];
  }

  /** A piece of s without pat, followed by a character pat does not contain,
      holds no start of pat: no occurrence can run past that character. */
  lemma AbsentInPiece(s: string, pat: string, lo: nat, hi: nat)
    requires lo <= hi <= |s| && NoOccurrence(s[lo..hi], pat)
    requires hi < |s| ==> s[hi] !in pat
    ensures AbsentBetween(s, pat, lo, hi)
  {
    forall j: nat | lo <= j < hi ensures !OccursAt(s, pat, j) {
      if j + |pat| <= hi {
        assert !OccursAt(s[lo..hi], pat, j - lo);
        SliceOfSlice(s, lo, hi, j - lo, j - lo + |pat|);
      } else if j + |pat| <= |s| {
        assert s[j..j + |pat|][hi - j] == s[hi];
        assert pat[hi - j] in pat;
      }
    }
  }

  /** A text that lacks some character of pat holds no occurrence of pat. */
  lemma NoOccurrenceWithout(s: string, pat: string, i: nat)
    requires i < |pat| && pat[i] !in s
    ensures NoOccurrence(s, pat)
  {
    forall j: nat | j + |pat| <= |s| ensures !OccursAt(s, pat, j) {
      assert s[j..j + |pat|][i] == s[j + i];
    }
  }

  /** Where `\s*` stops when it starts at i: the first non-whitespace index, or |s|. */
  function SkipSpace(s: string, i: nat): (j: nat)
    requires i <= |s|
    ensures i <= j <= |s|
    ensures SpaceBetween(s, i, j)
    ensures j < |s| ==> !IsSpace(s[j])
    decreases |s| - i
  {
    if i < |s| && IsSpace(s[i]) then SkipSpace(s, i + 1) else i
  }

  /** Where `.*` without DOTALL stops when it starts at i: the next newline, or |s|. */
  function LineEnd(s: string, i: nat): (e: nat)
    requires i <= |s|
    ensures i <= e <= |s|
    ensures LineBetween(s, i, e)
    ensures e < |s| ==> s[e] == '\n'
    decreases |s| - i
  {
    if i < |s| && s[i] != '\n' then LineEnd(s, i + 1) else i
  }

  /** The span [k, e) that the group of `\s*(.*)` (without DOTALL) covers when the
      match reaches index i: all whitespace, newlines included, is skipped, then
      the rest of that line is taken. */
  function SpacedLine(s: string, i: nat): (span: (nat, nat))
    requires i <= |s|
    ensures i <= span.0 <= span.1 <= |s|
    ensures SpaceBetween(s, i, span.0) && (span.0 < |s| ==> !IsSpace(s[span.0]))
    ensures LineBetween(s, span.0, span.1) && (span.1 < |s| ==> s[span.1] == '\n')
  {
    var k := SkipSpace(s, i);
    (k, LineEnd(s, k))
  }

  /** The two conditions above pin the span down: any k and e that satisfy them
      are the span SpacedLine reports. */
  lemma SpacedLineUnique(s: string, i: nat, k: nat, e: nat)
    requires i <= k <= e <= |s|
    requires SpaceBetween(s, i, k) && (k < |s| ==> !IsSpace(s[k]))
    requires LineBetween(s, k, e) && (e < |s| ==> s[e] == '\n')
    ensures SpacedLine(s, i) == (k, e)
  {
  }

  /** s is r with only whitespace before index a and after r. */
  ghost predicate PaddedAt(s: string, a: nat, r: string)
  {
    a + |r| <= |s| && s[a..a + |r|] == r && SpaceBetween(s, 0, a) && SpaceBetween(s, a + |r|, |s|)
  }

  /** Python's str.lstrip(). */
  function TrimStart(s: string): (r: string)
    ensures r == [] || !IsSpace(r[0])
  {
    if s != [] && IsSpace(s[0]) then TrimStart(s[1..]) else s
  }

  /** Python's str.rstrip(). */
  function TrimEnd(s: string): (r: string)
    ensures |r| <= |s| && (r == [] || (!IsSpace(r[|r| - 1]) && r[0] == s[0]))
  {
    if s != [] && IsSpace(s[|s| - 1]) then TrimEnd(s[..|s| - 1]) else s
  }

  /** Python's str.strip() with no argument. */
  function Trim(s: string): (r: string)
    ensures r == [] || (!IsSpace(r[0]) && !IsSpace(r[|r| - 1]))
  {
    TrimEnd(TrimStart(s))
  }

  /** lstrip removes a prefix of whitespace and nothing else. */
  lemma {:induction false} TrimStartFrame(s: string)
    ensures |TrimStart(s)| <= |s| && TrimStart(s) == s[|s| - |TrimStart(s)|..]
    ensures SpaceBetween(s, 0, |s| - |TrimStart(s)|)
  {
    if s != [] && IsSpace(s[0]) {
      TrimStartFrame(s[1..]);
    }
  }

  /** rstrip removes a suffix of whitespace and nothing else. */
  lemma {:induction false} TrimEndFrame(s: string)
    ensures |TrimEnd(s)| <= |s| && TrimEnd(s) == s[..|TrimEnd(s)|]
    ensures SpaceBetween(s, |TrimEnd(s)|, |s|)
  {
    if s != [] && IsSpace(s[|s| - 1]) {
      TrimEndFrame(s[..|s| - 1]);
    }
  }

  /** strip removes whitespace from both ends and nothing else: the result sits
      at index a of s with only whitespace around it. */
  lemma TrimFrame(s: string) returns (a: nat)
    ensures PaddedAt(s, a, Trim(s))
  {
    var t := TrimStart(s);
    TrimStartFrame(s);
    TrimEndFrame(t);
    a := |s| - |t|;
    var r := Trim(s);
    assert s[a..a + |r|] == t[..|r|];
    assert forall x :: a + |r| <= x < |s| ==> s[x] == t[x - a];
  }

  /** Leading whitespace is all lstrip looks past. */
  lemma {:induction false} TrimStartSkips(a: string, t: string)
    requires AllSpace(a)
    ensures TrimStart(a + t) == TrimStart(t)
  {
    if a != [] {
      assert (a + t)[0] == a[0] && IsSpace(a[0]);
      assert (a + t)[1..] == a[1..] + t;
      assert AllSpace(a[1..]) by {
        assert forall x :: 0 <= x < |a| - 1 ==> a[1..][x] == a[x + 1];
      }
      TrimStartSkips(a[1..], t);
    } else {
      assert a + t == t;
    }
  }

  /** Trailing whitespace is all rstrip looks past. */
  lemma {:induction false} TrimEndSkips(t: string, b: string)
    requires AllSpace(b)
    ensures TrimEnd(t + b) == TrimEnd(t)
  {
    if b != [] {
      assert (t + b)[|t + b| - 1] == b[|b| - 1] && IsSpace(b[|b| - 1]);
      assert (t + b)[..|t + b| - 1] == t + b[..|b| - 1];
      assert AllSpace(b[..|b| - 1]) by {
        assert forall x :: 0 <= x < |b| - 1 ==> b[..|b| - 1][x] == b[x];
      }
      TrimEndSkips(t, b[..|b| - 1]);
    } else {
      assert t + b == t;
    }
  }

  /** Stripping is determined by the frame: whitespace around a text that neither
      begins nor ends with whitespace is exactly what str.strip removes. */
  lemma TrimPadded(a: string, m: string, b: string)
    requires AllSpace(a) && AllSpace(b)
    requires m == [] || (!IsSpace(m[0]) && !IsSpace(m[|m| - 1]))
    ensures Trim(a + m + b) == m
  {
    assert a + m + b == a + (m + b);
    TrimStartSkips(a, m + b);
    if m == [] {
      assert m + b == b + [];
      TrimStartSkips(b, []);
    } else {
      TrimEndSkips(m, b);
    }
  }

  /** Whitespace added around a text does not change what str.strip returns. */
  lemma TrimIgnoresPadding(a: string, m: string, b: string)
    requires AllSpace(a) && AllSpace(b)
    ensures Trim(a + m + b) == Trim(m)
  {
    var r := Trim(m);
    var k := TrimFrame(m);
    var pre, post := PaddingOf(m, k, r);
    SpaceJoins(a, pre);
    SpaceJoins(post, b);
    Regroup(a, pre, r, post, b);
    TrimPadded(a + pre, r, post + b);
  }

  lemma Regroup(a: string, pre: string, r: string, post: string, b: string)
    ensures a + (pre + r + post) + b == (a + pre) + r + (post + b)
  {
  }

  /** The whitespace before and after r in a text padded around r. */
  lemma PaddingOf(s: string, k: nat, r: string) returns (pre: string, post: string)
    requires PaddedAt(s, k, r)
    ensures s == pre + r + post && AllSpace(pre) && AllSpace(post)
  {
    pre, post := s[..k], s[k + |r|..];
    assert s == s[..k] + s[k..k + |r|] + s[k + |r|..];
  }

  lemma SpaceJoins(x: string, y: string)
    requires AllSpace(x) && AllSpace(y)
    ensures AllSpace(x + y)
  {
  }

  /** Trailing whitespace alone does not change the stripped text. */
  lemma TrimDropsTrailing(m: string, b: string)
    requires AllSpace(b)
    ensures Trim(m + b) == Trim(m)
  {
    assert [] + m + b == m + b;
    TrimIgnoresPadding([], m, b);
  }

  /** A text that starts with a non-whitespace character keeps that character first. */
  lemma TrimKeepsFirst(s: string)
    requires s != [] && !IsSpace(s[0])
    ensures Trim(s) != [] && Trim(s)[0] == s[0]
  {
    var r := Trim(s);
    var k := TrimFrame(s);
    assert k == 0;
    assert s[k..k + |r|] == r;
  }

  /** A prefix of s cut where pat first starts holds no occurrence of pat. */
  lemma AbsentInPrefix(s: string, pat: string, i: nat)
    requires pat != [] && i <= |s| && AbsentBetween(s, pat, 0, i)
    ensures NoOccurrence(s[..i], pat)
  {
    forall j: nat | j + |pat| <= i ensures !OccursAt(s[..i], pat, j) {
      assert !OccursAt(s, pat, j);
      SliceOfSlice(s, 0, i, j, j + |pat|);
      assert s[..i] == s[0..i];
    }
  }

  /** str.split(sep) for a non-empty separator: the pieces between the
      occurrences of sep found left to right without overlap. */
  function Split(s: string, sep: string): (parts: seq<string>)
    requires sep != []
    ensures parts != []
    ensures forall k :: 0 <= k < |parts| ==> NoOccurrence(parts[k], sep)
    decreases |s|
  {
    FindMisses(s, sep, 0);
    match Find(s, sep, 0)
    case None => [s]
    case Some(i) =>
      AbsentInPrefix(s, sep, i);
      [s[..i]] + Split(s[i + |sep|..], sep)
  }

  /** The first occurrence of a marker whose first character is absent from
      the text before it. */
  lemma FirstMarkerAfter(a: string, marker: string, body: string)
    requires marker != [] && marker[0] !in a
    ensures Find(a + marker + body, marker, 0) == Some(|a|)
    ensures (a + marker + body)[..|a|] == a
    ensures (a + marker + body)[|a| + |marker|..] == body
  {
    var s := a + marker + body;
    assert s[0..|a|] == a;
    assert s[|a|..|a| + |marker|] == marker;
    AbsentWithoutFirst(s, marker, 0, |a|);
    FindFirst(s, marker, 0, |a|);
  }

  /** Splitting a text in which sep does not occur gives the text itself. */
  lemma SplitWithoutSep(a: string, sep: string)
    requires sep != [] && NoOccurrence(a, sep)
    ensures Split(a, sep) == [a]
  {
    FindFound(a, sep, 0);
  }

  /** Splitting cuts at the leftmost occurrence of sep: the first piece is
      everything before it, whatever else that piece holds. */
  lemma SplitAtFirstSep(s: string, sep: string, i: nat)
    requires sep != [] && OccursAt(s, sep, i) && AbsentBetween(s, sep, 0, i)
    ensures Split(s, sep) == [s[..i]] + Split(s[i + |sep|..], sep)
  {
    FindFirst(s, sep, 0, i);
  }

  /** sep.join(parts). */
  function Join(parts: seq<string>, sep: string): string
  {
    if |parts| == 0 then []
    else if |parts| == 1 then parts[0]
    else parts[0] + sep + Join(parts[1..], sep)
  }

  /** Joining the pieces of a split with the same separator gives the text back. */
  lemma {:induction false} JoinSplit(s: string, sep: string)
    requires sep != []
    ensures Join(Split(s, sep), sep) == s
    decreases |s|
  {
    FindFound(s, sep, 0);
    match Find(s, sep, 0)
    case None =>
    case Some(i) =>
      var rest := s[i + |sep|..];
      JoinSplit(rest, sep);
      assert Split(s, sep) == [s[..i]] + Split(rest, sep);
      assert s == s[..i] + sep + rest;
  }

  /** str.replace(pat, rep): every occurrence of pat, found left to right without
      overlap, replaced by rep. */
  function ReplaceAll(s: string, pat: string, rep: string): (r: string)
    requires pat != []
    ensures |rep| <= |pat| ==> |r| <= |s|
    decreases |s|
  {
    match Find(s, pat, 0)
    case None => s
    case Some(i) => s[..i] + rep + ReplaceAll(s[i + |pat|..], pat, rep)
  }

  /** Replacing is splitting on pat and joining with rep. */
  lemma {:induction false} ReplaceAllIsJoinSplit(s: string, pat: string, rep: string)
    requires pat != []
    ensures ReplaceAll(s, pat, rep) == Join(Split(s, pat), rep)
    decreases |s|
  {
    match Find(s, pat, 0)
    case None =>
    case Some(i) =>
      var rest := s[i + |pat|..];
      ReplaceAllIsJoinSplit(rest, pat, rep);
      assert Split(s, pat) == [s[..i]] + Split(rest, pat);
  }

  /** Replacing a single character by nothing leaves none of it behind. */
  lemma {:induction false} RemoveCharLeavesNone(s: string, c: char)
    ensures c !in ReplaceAll(s, [c], [])
    decreases |s|
  {
    FindMisses(s, [c], 0);
    match Find(s, [c], 0)
    case None =>
      forall j | 0 <= j < |s| ensures s[j] != c {
        assert !OccursAt(s, [c], j) && s[j..j + 1] == [s[j]];
      }
    case Some(i) =>
      var rest := s[i + 1..];
      RemoveCharLeavesNone(rest, c);
      forall j | 0 <= j < i ensures s[j] != c {
        assert !OccursAt(s, [c], j) && s[j..j + 1] == [s[j]];
      }
  }

  /** Text without pat is left as it is by str.replace. */
  lemma ReplaceAbsent(s: string, pat: string, rep: string)
    requires pat != [] && NoOccurrence(s, pat)
    ensures ReplaceAll(s, pat, rep) == s
  {
    FindFound(s, pat, 0);
  }

  /** A text that starts with pat loses that occurrence first. */
  lemma ReplaceAtStart(pat: string, rest: string, rep: string)
    requires pat != []
    ensures ReplaceAll(pat + rest, pat, rep) == rep + ReplaceAll(rest, pat, rep)
  {
    var s := pat + rest;
    assert s[0..|pat|] == pat && s[..0] == [] && s[|pat|..] == rest;
  }
}
