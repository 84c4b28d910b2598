/** Generated text identifiers: a prefix and the next number, printed and scanned as Go does. */
module StringIds {
  import opened Integers
  import opened Models
  import opened Slices
  import opened Wrappers
  import Text

  // ----- decimal text -----

  function Value(digits: string): nat
    requires Text.IsDigits(digits)
  {
    if digits == "" then 0
    else Value(digits[..|digits| - 1]) * 10 + (digits[|digits| - 1] - '0') as nat
  }

  function Digits(n: nat): (s: string)
    ensures |s| >= 1 && Text.IsDigits(s) && Value(s) == n
  {
    if n < 10 then [('0' as int + n) as char]
    else
      var s := Digits(n / 10) + [('0' as int + n % 10) as char];
      assert s[..|s| - 1] == Digits(n / 10);
      s
  }

  /** Leading zeros up to a width. */
  function Pad(digits: string, width: nat): string
    decreases width - |digits|
  {
    if |digits| >= width then digits else Pad("0" + digits, width)
  }

  /** `%04d`: the sign counts towards the width. */
  function Format04(n: Int64): string {
    var value: int := n;
    if value >= 0 then Pad(Digits(value), 4) else "-" + Pad(Digits(-value), 3)
  }

  /** `%d`. */
  function FormatInt(n: Int64): string {
    var value: int := n;
    if value >= 0 then Digits(value) else "-" + Digits(-value)
  }

  // ----- scanning -----

  /** White space before a number is skipped, but not a line end. */
  function SkipSpace(s: string): Option<string> {
    if s == "" then Some(s)
    else if s[0] == '\n' then None
    else if Text.IsSpace(s[0]) then SkipSpace(s[1..])
    else Some(s)
  }

  function LeadingDigits(s: string): (digits: string)
    ensures Text.IsDigits(digits) && digits <= s
  {
    if s == "" || !Text.IsDigit(s[0]) then "" else [s[0]] + LeadingDigits(s[1..])
  }

  /** `%d` of `Sscanf`: an optional sign and digits that fit 64 bits; what follows is not looked at. */
  function ScanInt(text: string): Option<Int64> {
    match SkipSpace(text)
    case None => None
    case Some(s) =>
      if s != "" && s[0] == '-' then ScanDigits(s[1..], true)
      else if s != "" && s[0] == '+' then ScanDigits(s[1..], false)
      else ScanDigits(s, false)
  }

  /** Digits after a sign, if the number fits 64 bits. */
  function ScanDigits(s: string, negative: bool): Option<Int64> {
    var digits := LeadingDigits(s);
    var value: int := Value(digits);
    if digits == "" then None
    else if negative then if -value >= MIN_INT then Some(-value) else None
    else if value <= MAX_INT then Some(value) else None
  }

  function ScanSuffix(pattern: string, id: string): Option<Int64> {
    if pattern <= id then ScanInt(id[|pattern|..]) else None
  }

  // ----- the generators -----

  /** The largest suffix among the identifiers with the pattern, or 0. */
  function MaxSuffix(pattern: string, ids: seq<string>): (max: Int64)
    ensures max >= 0
  {
    if ids == [] then 0
    else
      var max, n := MaxSuffix(pattern, ids[..|ids| - 1]), ScanSuffix(pattern, ids[|ids| - 1]);
      if n.Some? && n.value > max then n.value else max
  }

  function NextCode(pattern: string, ids: seq<string>): string {
    pattern + Format04(Increment(MaxSuffix(pattern, ids)))
  }

  function IdPattern(prefix: string, year: string): string {
    prefix + "-" + year + "-"
  }

  /** `PH-2025-0007` and the like, from the rows' identifiers. */
  method NextStringID<T>(prefix: string, year: string, rows: seq<T>, idOf: T -> string) returns (id: string)
    ensures id == NextCode(IdPattern(prefix, year), Map(rows, idOf))
  {
    var pattern := IdPattern(prefix, year);
    ghost var ids := Map(rows, idOf);
    var max: Int64 := 0;
    for i := 0 to |rows|
      invariant max == MaxSuffix(pattern, ids[..i])
    {
      assert ids[..i + 1][..i] == ids[..i];
      var row := idOf(rows[i]);
      if !(pattern <= row) {
        continue;
      }
      var n := ScanInt(row[|pattern|..]);
      if n.Some? && n.value > max {
        max := n.value;
      }
    }
    assert ids[..|rows|] == ids;
    id := pattern + Format04(Increment(max));
  }

  const PROJECT_PATTERN := "PRJ-"

  /** The maximum depends on which identifiers there are, not on their order or repetition. */
  lemma {:induction false} MaxSuffixOf(pattern: string, a: seq<string>, b: seq<string>)
    requires forall x | x in a :: x in b
    ensures MaxSuffix(pattern, a) <= MaxSuffix(pattern, b)
  {
    if a != [] {
      var init, last := a[..|a| - 1], a[|a| - 1];
      assert a == init + [last];
      MaxSuffixOf(pattern, init, b);
      if ScanSuffix(pattern, last).Some? {
        MaxSuffixBounds(pattern, b, last);
      }
    }
  }

  lemma SameCodes(pattern: string, a: seq<string>, b: seq<string>)
    requires Elements(a) == Elements(b)
    ensures MaxSuffix(pattern, a) == MaxSuffix(pattern, b)
  {
    forall x ensures x in a <==> x in b {
      assert x in Elements(a) <==> x in Elements(b);
    }
    MaxSuffixOf(pattern, a, b);
    MaxSuffixOf(pattern, b, a);
  }

  lemma MaxSuffixStep(pattern: string, ids: seq<string>, id: string)
    ensures var max, n := MaxSuffix(pattern, ids), ScanSuffix(pattern, id);
            MaxSuffix(pattern, ids + [id]) == if n.Some? && n.value > max then n.value else max
  {
    assert (ids + [id])[..|ids|] == ids;
  }

  ghost function CodesOf(projects: map<string, Project>): set<string> {
    set id | id in projects :: projects[id].code
  }

  /** The next project code is the same in whatever order the map yields the projects. */
  method NextProjectCode(projects: map<string, Project>) returns (code: string)
    ensures forall codes: seq<string> | Elements(codes) == CodesOf(projects) :: code == NextCode(PROJECT_PATTERN, codes)
  {
    var max: Int64 := 0;
    ghost var seen: seq<string> := [];
    var left := projects.Keys;
    while left != {}
      invariant left <= projects.Keys
      invariant max == MaxSuffix(PROJECT_PATTERN, seen)
      invariant forall id | id in projects && id !in left :: projects[id].code in seen
      invariant forall c | c in seen :: c in CodesOf(projects)
      decreases |left|
    {
      var id :| id in left;
      left := left - {id};
      var c := projects[id].code;
      var n := ScanSuffix(PROJECT_PATTERN, c);
      if n.Some? && n.value > max {
        max := n.value;
      }
      MaxSuffixStep(PROJECT_PATTERN, seen, c);
      seen := seen + [c];
    }
    assert Elements(seen) == CodesOf(projects);
    code := PROJECT_PATTERN + Format04(Increment(max));
    forall codes: seq<string> | Elements(codes) == CodesOf(projects) ensures code == NextCode(PROJECT_PATTERN, codes) {
      SameCodes(PROJECT_PATTERN, codes, seen);
    }
  }

  // ----- print and scan -----

  lemma {:induction false} ZeroInFront(digits: string)
    requires Text.IsDigits(digits)
    ensures Text.IsDigits("0" + digits) && Value("0" + digits) == Value(digits)
  {
    var s := "0" + digits;
    if digits == "" {
      assert s[..0] == "";
    } else {
      ZeroInFront(digits[..|digits| - 1]);
      assert s[..|s| - 1] == "0" + digits[..|digits| - 1];
    }
  }

  lemma {:induction false} PadKeeps(digits: string, width: nat)
    requires Text.IsDigits(digits) && |digits| >= 1
    ensures var s := Pad(digits, width); |s| >= 1 && Text.IsDigits(s) && Value(s) == Value(digits)
    decreases width - |digits|
  {
    if |digits| < width {
      ZeroInFront(digits);
      PadKeeps("0" + digits, width);
    }
  }

  lemma {:induction false} LeadingDigitsAll(s: string)
    requires Text.IsDigits(s)
    ensures LeadingDigits(s) == s
  {
    if s != "" {
      LeadingDigitsAll(s[1..]);
    }
  }

  lemma ScanPlain(digits: string)
    requires |digits| >= 1 && Text.IsDigits(digits)
    ensures ScanInt(digits) == ScanDigits(digits, false)
  {
    assert Text.IsDigit(digits[0]);
    assert SkipSpace(digits) == Some(digits);
  }

  lemma ScanNegative(digits: string)
    ensures ScanInt("-" + digits) == ScanDigits(digits, true)
  {
    var text := "-" + digits;
    assert text[0] == '-';
    assert SkipSpace(text) == Some(text);
    assert text[1..] == digits;
  }

  /** Scanning a printed number gives it back, for every 64-bit integer. */
  lemma ScanFormat(n: Int64)
    ensures ScanInt(Format04(n)) == Some(n)
  {
    var value: int := n;
    if value >= 0 {
      var digits := Pad(Digits(value), 4);
      PadKeeps(Digits(value), 4);
      ScanPlain(digits);
      LeadingDigitsAll(digits);
    } else {
      var digits := Pad(Digits(-value), 3);
      PadKeeps(Digits(-value), 3);
      ScanNegative(digits);
      LeadingDigitsAll(digits);
    }
  }

  /** Printed integers tell the integers apart. */
  lemma FormatIntScans(n: Int64)
    ensures ScanInt(FormatInt(n)) == Some(n)
  {
    var value: int := n;
    if value >= 0 {
      ScanPlain(Digits(value));
      LeadingDigitsAll(Digits(value));
    } else {
      ScanNegative(Digits(-value));
      LeadingDigitsAll(Digits(-value));
    }
  }

  lemma {:induction false} MaxSuffixBounds(pattern: string, ids: seq<string>, id: string)
    requires id in ids && ScanSuffix(pattern, id).Some?
    ensures ScanSuffix(pattern, id).value <= MaxSuffix(pattern, ids)
  {
    var init, last := ids[..|ids| - 1], ids[|ids| - 1];
    assert ids == init + [last];
    if id != last {
      MaxSuffixBounds(pattern, init, id);
    }
  }

  /**
   * The generated identifier is not among the given ones, whatever text they are, unless the
   * largest suffix has reached the end of the integers and its wrapped successor is taken.
   */
  lemma NextCodeFresh(pattern: string, ids: seq<string>)
    ensures NextCode(pattern, ids) !in ids <==>
            !(MaxSuffix(pattern, ids) == MAX_INT && pattern + Format04(MIN_INT) in ids)
  {
    var next := Increment(MaxSuffix(pattern, ids));
    var id := NextCode(pattern, ids);
    assert id[|pattern|..] == Format04(next);
    ScanFormat(next);
    if id in ids && MaxSuffix(pattern, ids) != MAX_INT {
      MaxSuffixBounds(pattern, ids, id);
    }
  }

  /** As long as no suffix is the largest integer, adding generated identifiers never repeats one. */
  lemma NextCodeDistinct(pattern: string, ids: seq<string>)
    requires MaxSuffix(pattern, ids) < MAX_INT
    ensures NextCode(pattern, ids) !in ids
    ensures MaxSuffix(pattern, ids + [NextCode(pattern, ids)]) == MaxSuffix(pattern, ids) + 1
  {
    NextCodeFresh(pattern, ids);
    var id, next := NextCode(pattern, ids), Increment(MaxSuffix(pattern, ids));
    assert (ids + [id])[..|ids|] == ids;
    assert id[|pattern|..] == Format04(next);
    ScanFormat(next);
  }
}
