/**
 The three regular expressions the cloze path of `genanki/note.py` runs with
 `re.findall`, each written out as the backtracking search Python's `re`
 module performs:

   `{{[^}]*?cloze:(?:[^}]?:)*(.+?)}}`   a cloze field reference in mustache syntax,
   `<%cloze:(.+?)%>`                    the same in the legacy syntax,
   `{{c(\d+)::.+?}}`                    a cloze deletion `{{cN::text}}` in a field value.

 None of them is compiled with `re.DOTALL`, so `.` never matches a newline,
 while `[^}]` does. A match at a position depends only on the text from that
 position on, so every matcher here takes that suffix and reports how many
 characters it consumed. `\d` is taken to be the ASCII digits.
 */
module Cloze {
  import opened Results
  import opened Strings

  predicate StartsWith(s: string, prefix: string) {
    |prefix| <= |s| && s[..|prefix|] == prefix
  }

  /** No newline among `s[a..b]`. */
  predicate NoNewline(s: string, a: int, b: int)
    requires 0 <= a && b <= |s|
  {
    forall k | a <= k < b :: s[k] != '\n'
  }

  /** `.+?` can stop after `e` characters of `s` with `close` next. */
  predicate LazyEnd(s: string, close: string, e: nat) {
    1 <= e <= |s| && NoNewline(s, 0, e) && StartsWith(s[e..], close)
  }

  /** `(.+?)` followed by `close`, having consumed `from - 1` characters:
      the shortest newline-free, non-empty group after which `close` occurs. */
  function LazyUntil(s: string, close: string, from: nat): (r: Option<nat>)
    requires 1 <= from && from - 1 <= |s| && NoNewline(s, 0, from - 1)
    ensures r.Some? ==> from <= r.value && LazyEnd(s, close, r.value)
    ensures r.Some? ==> forall e | from <= e < r.value :: !StartsWith(s[e..], close)
    ensures r.None? ==> forall e | from <= e :: !LazyEnd(s, close, e)
    decreases |s| - from
  {
    if from > |s| then None
    else if s[from - 1] == '\n' then None
    else if StartsWith(s[from..], close) then Some(from)
    else LazyUntil(s, close, from + 1)
  }

  /** The shortest group after which `close` occurs, as the group and the
      length of group and `close` together. */
  function LazyGroup(s: string, close: string): (r: Option<(string, nat)>)
    ensures r.Some? ==> LazyEnd(s, close, |r.value.0|) && r.value.1 == |r.value.0| + |close|
    ensures r.Some? ==> r.value.0 == s[..|r.value.0|]
    ensures r.Some? ==> forall e | 1 <= e < |r.value.0| :: !StartsWith(s[e..], close)
    ensures r.None? ==> forall e :: !LazyEnd(s, close, e)
  {
    match LazyUntil(s, close, 1)
    case None => None
    case Some(e) => Some((s[..e], e + |close|))
  }

  // ---------------------------------------------------------------------
  // `{{[^}]*?cloze:(?:[^}]?:)*(.+?)}}`
  // ---------------------------------------------------------------------

  /** `(?:[^}]?:)*(.+?)}}`: the greedy repetition tries one more item before
      leaving, and each item tries `[^}]` before the empty alternative. */
  function GroupStar(s: string): (r: Option<(string, nat)>)
    ensures r.Some? ==> 0 < |r.value.0| && |r.value.0| + 2 <= r.value.1 <= |s|
    decreases |s|
  {
    var oneMore :=
      if 2 <= |s| && s[0] != '}' && s[1] == ':' then
        match GroupStar(s[2..])
        case Some((g, n)) => Some((g, n + 2))
        case None => None
      else None;
    if oneMore.Some? then oneMore
    else
      var colonOnly :=
        if 1 <= |s| && s[0] == ':' then
          match GroupStar(s[1..])
          case Some((g, n)) => Some((g, n + 1))
          case None => None
        else None;
      if colonOnly.Some? then colonOnly
      else LazyGroup(s, "}}")
  }

  /** `[^}]*?cloze:` and the rest, having consumed `j` characters after `{{`. */
  function LazyPrefix(s: string, j: nat): (r: Option<(string, nat)>)
    requires j <= |s|
    ensures r.Some? ==> 0 < |r.value.0| && j + |r.value.0| + 8 <= r.value.1 <= |s|
    ensures r.Some? ==> Contains(s, "cloze:")
    decreases |s| - j
  {
    var here :=
      if StartsWith(s[j..], "cloze:") then
        match GroupStar(s[j + 6..])
        case Some((g, n)) => Some((g, j + 6 + n))
        case None => None
      else None;
    if here.Some? then
      assert s[j..][..6] == s[j..j + 6] && OccursAt(s, "cloze:", j);
      here
    else if j < |s| && s[j] != '}' then LazyPrefix(s, j + 1)
    else None
  }

  /** A field reference at the start of `s`: its name and the match length. */
  function MatchFieldRef(s: string): (r: Option<(string, nat)>)
    ensures r.Some? ==> 0 < |r.value.0| && |r.value.0| + 10 <= r.value.1 <= |s|
    ensures r.Some? ==> Contains(s, "cloze:")
  {
    if StartsWith(s, "{{") then
      match LazyPrefix(s[2..], 0)
      case Some((g, n)) =>
        ContainsSuffix(s, 2, "cloze:");
        Some((g, n + 2))
      case None => None
    else None
  }

  /** `<%cloze:(.+?)%>` at the start of `s`. */
  function MatchLegacyRef(s: string): (r: Option<(string, nat)>)
    ensures r.Some? ==> 0 < |r.value.0| && |r.value.0| + 10 <= r.value.1 <= |s|
    ensures r.Some? ==> Contains(s, "cloze:")
  {
    if StartsWith(s, "<%cloze:") then
      match LazyGroup(s[8..], "%>")
      case Some((g, n)) =>
        assert s[2..8] == "cloze:" && OccursAt(s, "cloze:", 2);
        Some((g, n + 8))
      case None => None
    else None
  }

  /** `re.findall` of the mustache-syntax field reference. */
  function FieldRefs(s: string): seq<string>
    decreases |s|
  {
    if |s| == 0 then []
    else
      match MatchFieldRef(s)
      case Some((g, n)) => [g] + FieldRefs(s[n..])
      case None => FieldRefs(s[1..])
  }

  /** `re.findall` of the legacy field reference. */
  function LegacyRefs(s: string): seq<string>
    decreases |s|
  {
    if |s| == 0 then []
    else
      match MatchLegacyRef(s)
      case Some((g, n)) => [g] + LegacyRefs(s[n..])
      case None => LegacyRefs(s[1..])
  }

  // ---------------------------------------------------------------------
  // `{{c(\d+)::.+?}}`
  // ---------------------------------------------------------------------

  predicate IsDigit(c: char) {
    '0' <= c <= '9'
  }

  predicate AllDigits(s: string) {
    forall i | 0 <= i < |s| :: IsDigit(s[i])
  }

  /** The length of the run of digits `s` starts with. */
  function DigitRun(s: string): (k: nat)
    ensures k <= |s| && AllDigits(s[..k])
    ensures k < |s| ==> !IsDigit(s[k])
    decreases |s|
  {
    if |s| > 0 && IsDigit(s[0]) then
      var k := 1 + DigitRun(s[1..]);
      assert forall i | 1 <= i < k :: s[..k][i] == s[1..][..k - 1][i - 1];
      k
    else 0
  }

  /** `int(ds)` for a string of ASCII digits. */
  function DecimalValue(ds: string): nat
    requires AllDigits(ds)
    decreases |ds|
  {
    if |ds| == 0 then 0
    else DecimalValue(ds[..|ds| - 1]) * 10 + (ds[|ds| - 1] as int - '0' as int)
  }

  /** `str(n)`: the decimal digits of `n`, without leading zeros. */
  function Decimal(n: nat): (ds: string)
    ensures 1 <= |ds| && AllDigits(ds)
    ensures DecimalValue(ds) == n
    ensures n > 0 ==> ds[0] != '0'
    decreases n
  {
    var last := ('0' as int + n % 10) as char;
    if n < 10 then [last]
    else
      var ds := Decimal(n / 10) + [last];
      assert ds[..|ds| - 1] == Decimal(n / 10);
      ds
  }

  /** A cloze deletion `{{c` digits `::` text `}}` at the start of `s`, with
      `k` digits and `e` characters of newline-free text. */
  predicate MarkerAt(s: string, k: nat, e: nat) {
    && 7 + k + e <= |s|
    && StartsWith(s, "{{c")
    && 1 <= k && AllDigits(s[3..3 + k])
    && s[3 + k..5 + k] == "::"
    && 1 <= e && NoNewline(s, 5 + k, 5 + k + e)
    && s[5 + k + e..7 + k + e] == "}}"
  }

  /** The deletion number and match length of a cloze deletion at the start
      of `s`. The digit run is taken whole: giving back a digit cannot let
      `::` match. */
  function MatchMarker(s: string): (r: Option<(nat, nat)>)
    ensures r.Some? ==> 7 <= r.value.1 <= |s|
  {
    if !StartsWith(s, "{{c") then None
    else
      var k := DigitRun(s[3..]);
      if k == 0 || !StartsWith(s[3 + k..], "::") then None
      else
        var g := LazyGroup(s[5 + k..], "}}");
        if g.None? then None
        else
          assert s[3..3 + k] == s[3..][..k];
          Some((DecimalValue(s[3..3 + k]), 5 + k + g.value.1))
  }

  /** A match is a cloze deletion, and the number is its digits read in base ten. */
  lemma MatchMarkerSound(s: string)
    ensures MatchMarker(s).Some? ==> exists k, e | MarkerAt(s, k, e) ::
              MatchMarker(s).value == (DecimalValue(s[3..3 + k]), 7 + k + e)
  {
    if MatchMarker(s).Some? {
      var k := DigitRun(s[3..]);
      var g := LazyGroup(s[5 + k..], "}}").value.0;
      var e := |g|;
      assert s[3..3 + k] == s[3..][..k];
      assert forall i | 5 + k <= i < 5 + k + e :: s[i] == s[5 + k..][i - 5 - k];
      assert s[5 + k + e..7 + k + e] == s[5 + k..][e..][..2];
      assert MarkerAt(s, k, e);
    }
  }

  /** Conversely, a cloze deletion at the start of `s` is matched, with the
      number its digits spell; the lazy group may stop at an earlier `}}`. */
  lemma MatchMarkerComplete(s: string, k: nat, e: nat)
    requires MarkerAt(s, k, e)
    ensures MatchMarker(s).Some?
    ensures MatchMarker(s).value.0 == DecimalValue(s[3..3 + k])
    ensures MatchMarker(s).value.1 <= 7 + k + e
  {
    assert s[3..] == s[3..3 + k] + s[3 + k..];
    assert s[3 + k] == ':';
    DigitRunOf(s[3..3 + k], s[3 + k..]);
    assert s[3 + k..][..2] == s[3 + k..5 + k];
    var t := s[5 + k..];
    assert LazyEnd(t, "}}", e) by {
      assert |t| == |s| - 5 - k;
      assert forall i | 0 <= i < e :: t[i] == s[5 + k + i];
      assert t[e..][..2] == s[5 + k + e..7 + k + e];
    }
    assert LazyGroup(t, "}}").Some?;
    var g := LazyGroup(t, "}}").value;
    assert |g.0| <= e;
    MatchMarkerParts(s, k, g);
  }

  /** `re.findall` of the cloze deletion, each group read with `int`. */
  function MarkerNumbers(s: string): (ns: seq<nat>)
    decreases |s|, 1
  {
    if |s| == 0 then [] else MarkerNumbersAt(s)
  }

  /** One step of the scan: take the deletion at the start of `s`, or skip a
      character. */
  function MarkerNumbersAt(s: string): (ns: seq<nat>)
    requires |s| > 0
    decreases |s|, 0
  {
    match MatchMarker(s)
    case Some((n, len)) => [n] + MarkerNumbers(s[len..])
    case None => MarkerNumbers(s[1..])
  }

  /** The scan, one step unfolded. */
  lemma MarkerNumbersUnfold(s: string)
    ensures |s| == 0 ==> MarkerNumbers(s) == []
    ensures |s| > 0 && MatchMarker(s).None? ==> MarkerNumbers(s) == MarkerNumbers(s[1..])
    ensures |s| > 0 && MatchMarker(s).Some? ==>
              MarkerNumbers(s) == [MatchMarker(s).value.0] + MarkerNumbers(s[MatchMarker(s).value.1..])
  {
  }

  // ---------------------------------------------------------------------
  // What the scans find
  // ---------------------------------------------------------------------

  /** Text without the word `cloze:` references no field. */
  lemma {:induction false} NoClozeNoRefs(s: string)
    requires !Contains(s, "cloze:")
    ensures FieldRefs(s) == [] && LegacyRefs(s) == []
    decreases |s|
  {
    if |s| > 0 {
      if Contains(s[1..], "cloze:") {
        ContainsSuffix(s, 1, "cloze:");
      }
      NoClozeNoRefs(s[1..]);
    }
  }

  /** Text without `<` holds no legacy `<%cloze:Name%>` reference. */
  lemma {:induction false} NoAngleNoLegacyRefs(s: string)
    requires '<' !in s
    ensures LegacyRefs(s) == []
    decreases |s|
  {
    if |s| > 0 {
      assert !StartsWith(s, "<%cloze:") by { assert s[0] in s; }
      assert '<' !in s[1..] by { assert forall c | c in s[1..] :: c in s; }
      NoAngleNoLegacyRefs(s[1..]);
    }
  }

  /** A non-empty, one-line group free of `}` ends at the first `}}`. */
  lemma LazyGroupClosed(x: string, rest: string)
    requires |x| > 0 && '}' !in x && '\n' !in x
    ensures LazyGroup(x + "}}" + rest, "}}") == Some((x, |x| + 2))
  {
    var t := x + "}}" + rest;
    assert t[..|x|] == x;
    assert LazyEnd(t, "}}", |x|) by {
      assert t[|x|..][..2] == "}}";
    }
    assert forall e | 1 <= e < |x| :: !StartsWith(t[e..], "}}") by {
      forall e | 1 <= e < |x| ensures t[e..][..2][0] == x[e] && x[e] in x {}
    }
  }

  /** `{{cloze:Name}}` names the field `Name` when the name holds no colon,
      brace or newline. */
  lemma FieldRefOfName(x: string, rest: string)
    requires |x| > 0 && ':' !in x && '}' !in x && '\n' !in x
    ensures FieldRefs("{{cloze:" + x + "}}" + rest) == [x] + FieldRefs(rest)
  {
    var s := "{{cloze:" + x + "}}" + rest;
    var t := x + "}}" + rest;
    assert s[2..][0..] == s[2..] && s[2..][6..] == t;
    assert StartsWith(s[2..][0..], "cloze:");
    // The repetition cannot take an item: `x` has no colon and is followed by `}`.
    assert !(2 <= |t| && t[0] != '}' && t[1] == ':') by {
      if |x| >= 2 { assert t[1] == x[1]; } else { assert t[1] == '}'; }
    }
    assert !(1 <= |t| && t[0] == ':') by { assert t[0] == x[0]; }
    LazyGroupClosed(x, rest);
    assert GroupStar(t) == Some((x, |x| + 2));
    assert MatchFieldRef(s) == Some((x, |s| - |rest|));
    assert s[|s| - |rest|..] == rest;
  }

  /** A question that is the single tag `{{cloze:Name}}` references `Name`
      by the field form and nothing by the legacy form. */
  lemma SoleFieldRef(x: string)
    requires |x| > 0 && ':' !in x && '}' !in x && '\n' !in x && '<' !in x
    ensures FieldRefs("{{cloze:" + x + "}}") == [x]
    ensures LegacyRefs("{{cloze:" + x + "}}") == []
  {
    var q := "{{cloze:" + x + "}}";
    assert q == q + "";
    FieldRefOfName(x, "");
    assert FieldRefs("") == [];
    assert '<' !in q by {
      assert forall c | c in q :: c in "{{cloze:" || c in x || c in "}}";
    }
    NoAngleNoLegacyRefs(q);
  }

  /** A text free of `{` holds no cloze deletion, even joined to more text. */
  lemma {:induction false} MarkerNumbersSkipText(t: string, rest: string)
    requires '{' !in t
    ensures MarkerNumbers(t + rest) == MarkerNumbers(rest)
    decreases |t|
  {
    if |t| > 0 {
      var s := t + rest;
      assert s[0] == t[0] && t[0] in t;
      assert !StartsWith(s, "{{c");
      assert MatchMarker(s) == None;
      assert s[1..] == t[1..] + rest;
      assert '{' !in t[1..] by {
        assert forall c | c in t[1..] :: c in t;
      }
      MarkerNumbersSkipText(t[1..], rest);
      MarkerNumbersUnfold(s);
    } else {
      assert t + rest == rest;
    }
  }

  /** The first cloze deletion of a text, after a stretch free of `{`, is
      found by the scan: its number comes first among those reported. */
  lemma MarkerNumbersComplete(head: string, s: string, k: nat, e: nat)
    requires '{' !in head && MarkerAt(s, k, e)
    ensures |MarkerNumbers(head + s)| > 0
    ensures MarkerNumbers(head + s)[0] == DecimalValue(s[3..3 + k])
  {
    MarkerNumbersSkipText(head, s);
    MatchMarkerComplete(s, k, e);
    MarkerNumbersUnfold(s);
  }

  /** `{{cN::x}}` as a field value writes it. */
  function Marker(n: nat, x: string): string {
    "{{c" + Decimal(n) + "::" + x + "}}"
  }

  /** The digit run of `d + tail` is `d` when `tail` starts with a non-digit. */
  lemma DigitRunOf(d: string, tail: string)
    requires AllDigits(d) && |tail| > 0 && !IsDigit(tail[0])
    ensures DigitRun(d + tail) == |d|
  {
    var s := d + tail;
    var k := DigitRun(s);
    assert s[..|d|] == d;
    assert s[|d|] == tail[0];
  }

  /** A cloze deletion whose text is one line without braces yields its number. */
  lemma MarkerNumbersOfMarker(n: nat, x: string, rest: string)
    requires |x| > 0 && '}' !in x && '\n' !in x
    ensures MarkerNumbers(Marker(n, x) + rest) == [n] + MarkerNumbers(rest)
  {
    var s := Marker(n, x) + rest;
    MatchMarkerOf(n, x, rest);
    assert s[|Marker(n, x)|..] == rest;
  }

  /** The fixed head `{{cN::` of a cloze deletion. */
  lemma MarkerHead(n: nat, t: string)
    ensures var s := "{{c" + Decimal(n) + "::" + t; var k := |Decimal(n)|;
      && StartsWith(s, "{{c") && DigitRun(s[3..]) == k && k != 0
      && StartsWith(s[3 + k..], "::") && s[5 + k..] == t
      && DecimalValue(s[3..3 + k]) == n
  {
    var d := Decimal(n);
    var s := "{{c" + d + "::" + t;
    var k := |d|;
    assert s[..3] == "{{c";
    assert s[3..] == d + ("::" + t);
    DigitRunOf(d, "::" + t);
    assert s[3 + k..] == "::" + t;
    assert s[3..3 + k] == d;
  }

  /** How `MatchMarker` reads a deletion once its three parts are known. */
  lemma MatchMarkerParts(s: string, k: nat, g: (string, nat))
    requires StartsWith(s, "{{c") && k != 0 && 3 + k <= |s| && DigitRun(s[3..]) == k
    requires StartsWith(s[3 + k..], "::") && LazyGroup(s[5 + k..], "}}") == Some(g)
    ensures AllDigits(s[3..3 + k])
    ensures MatchMarker(s) == Some((DecimalValue(s[3..3 + k]), 5 + k + g.1))
  {
    assert s[3..3 + k] == s[3..][..k];
  }

  /** `Marker(n, x) + rest` regrouped around the text that follows `::`. */
  lemma MarkerRegroup(n: nat, x: string, rest: string)
    ensures Marker(n, x) + rest == "{{c" + Decimal(n) + "::" + (x + "}}" + rest)
    ensures |Marker(n, x)| == 7 + |Decimal(n)| + |x|
  {
  }

  lemma MatchMarkerOf(n: nat, x: string, rest: string)
    requires |x| > 0 && '}' !in x && '\n' !in x
    ensures MatchMarker(Marker(n, x) + rest) == Some((n, |Marker(n, x)|))
  {
    var k := |Decimal(n)|;
    var t := x + "}}" + rest;
    MarkerRegroup(n, x, rest);
    MarkerHead(n, t);
    LazyGroupClosed(x, rest);
    MatchMarkerParts(Marker(n, x) + rest, k, (x, |x| + 2));
  }

  /** Every number the scan reports is read from a cloze deletion in `s`. */
  lemma {:induction false} MarkerNumbersSound(s: string, n: nat)
    requires n in MarkerNumbers(s)
    ensures exists i, k, e | 0 <= i <= |s| && MarkerAt(s[i..], k, e) :: DecimalValue(s[i..][3..3 + k]) == n
    decreases |s|
  {
    MatchMarkerSound(s);
    match MatchMarker(s)
    case Some((m, len)) =>
      if n == m {
        var k, e :| MarkerAt(s, k, e) && (m, len) == (DecimalValue(s[3..3 + k]), 7 + k + e);
        assert s[0..] == s;
      } else {
        MarkerNumbersSound(s[len..], n);
        var i, k, e :| 0 <= i <= |s[len..]| && MarkerAt(s[len..][i..], k, e) &&
                       DecimalValue(s[len..][i..][3..3 + k]) == n;
        assert s[len..][i..] == s[len + i..];
      }
    case None =>
      MarkerNumbersSound(s[1..], n);
      var i, k, e :| 0 <= i <= |s[1..]| && MarkerAt(s[1..][i..], k, e) &&
                     DecimalValue(s[1..][i..][3..3 + k]) == n;
      assert s[1..][i..] == s[1 + i..];
  }

  /** A group whose second character is a newline cannot close: `.` does not
      match a newline and `}}` cannot start at the first character's place. */
  lemma LazyGroupNewlineSecond(t: string)
    requires |t| >= 2 && t[0] != '}' && t[1] == '\n'
    ensures LazyGroup(t, "}}") == None
  {
    forall e | 1 <= e
      ensures !LazyEnd(t, "}}", e)
    {
      if 2 <= e <= |t| {
        assert !NoNewline(t, 0, e);
      } else if e == 1 && |t[1..]| >= 2 {
        assert t[1..][..2][0] == '\n';
      }
    }
  }

  /** How `MatchMarker` rejects a deletion whose group cannot close. */
  lemma MatchMarkerUnclosed(s: string, k: nat)
    requires StartsWith(s, "{{c") && k != 0 && 3 + k <= |s| && DigitRun(s[3..]) == k
    requires StartsWith(s[3 + k..], "::") && LazyGroup(s[5 + k..], "}}") == None
    ensures MatchMarker(s) == None
  {
  }

  /** No `re.DOTALL`: a deletion whose text runs onto a second line is not
      read, because its group would have to cross the newline. */
  lemma MultilineMarkerIgnored()
    ensures MarkerNumbers("{{c1::a\nb}}") == []
  {
    var s := "{{c1::a\nb}}";
    var t := "a\nb}}";
    assert Decimal(1) == "1";
    assert s == "{{c" + Decimal(1) + "::" + t;
    MarkerHead(1, t);
    LazyGroupNewlineSecond(t);
    MatchMarkerUnclosed(s, 1);
    assert s[1..][..3] != "{{c" by { assert s[1..][1] == 'c'; }
    assert MatchMarker(s[1..]) == None;
    assert s[1..][1..] == s[2..];
    assert '{' !in s[2..];
    MarkerNumbersSkipText(s[2..], []);
    assert s[2..] + [] == s[2..];
  }

  /** Matches do not overlap: a deletion nested in the text of another is
      consumed with it and its number is not read. */
  lemma NestedMarkerHidden()
    ensures MarkerNumbers("{{c1::{{c2::a}}") == [1]
  {
    var x := "{{c2::a";
    assert Decimal(1) == "1";
    assert Marker(1, x) == "{{c1::{{c2::a}}";
    MarkerNumbersOfMarker(1, x, []);
    assert Marker(1, x) + [] == Marker(1, x);
  }
}
