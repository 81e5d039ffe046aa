/** The Python `str`, `list` and `pathlib` operations that the modelled code relies
    on, restricted to ASCII: `lower`, `upper`, `title`, `strip`, `split` on one
    character, `join`, `replace` of one character, string repetition, `str(n)` for
    a natural number, list slicing `xs[:n]`, Python truthiness for optional strings,
    and `Path.stem` / `Path.suffix`. */
module PyStr {
  import opened Errors

  // ---------------------------------------------------------------------------
  // Characters

  predicate IsUpper(c: char) { 'A' <= c <= 'Z' }
  predicate IsLower(c: char) { 'a' <= c <= 'z' }

  /** A cased character in the sense of Python's `str.title`. */
  predicate IsCased(c: char) { IsUpper(c) || IsLower(c) }

  /** The characters `str.strip()` removes (the ASCII part of Python's whitespace). */
  predicate IsSpace(c: char) {
    c as int == 32 || 9 <= c as int <= 13 || 28 <= c as int <= 31
  }

  function LowerChar(c: char): char {
    if IsUpper(c) then (c as int + 32) as char else c
  }

  function UpperChar(c: char): char {
    if IsLower(c) then (c as int - 32) as char else c
  }

  // ---------------------------------------------------------------------------
  // Case functions

  /** `s.lower()` */
  function Lower(s: string): string {
    seq(|s|, i requires 0 <= i < |s| => LowerChar(s[i]))
  }

  /** `s.upper()` */
  function Upper(s: string): string {
    seq(|s|, i requires 0 <= i < |s| => UpperChar(s[i]))
  }

  /** `str.title` on the rest of a string, where `afterCased` says whether the
      character before it was cased: a cased character that follows a cased one is
      lower-cased, any other is upper-cased. */
  function TitleFrom(s: string, afterCased: bool): string
    decreases |s|
  {
    if s == [] then []
    else [if afterCased then LowerChar(s[0]) else UpperChar(s[0])] + TitleFrom(s[1..], IsCased(s[0]))
  }

  /** `s.title()` */
  function Title(s: string): string {
    TitleFrom(s, false)
  }

  lemma LowerIdempotent(s: string)
    ensures Lower(Lower(s)) == Lower(s)
  {
  }

  lemma {:induction false} TitleFromShape(s: string, afterCased: bool)
    ensures |TitleFrom(s, afterCased)| == |s|
    ensures forall i :: 0 <= i < |s| ==>
      (IsCased(TitleFrom(s, afterCased)[i]) <==> IsCased(s[i])) &&
      (TitleFrom(s, afterCased)[i] == '\n' <==> s[i] == '\n')
    decreases |s|
  {
    if s != [] {
      TitleFromShape(s[1..], IsCased(s[0]));
      var t := TitleFrom(s, afterCased);
      forall i | 0 <= i < |s|
        ensures (IsCased(t[i]) <==> IsCased(s[i])) && (t[i] == '\n' <==> s[i] == '\n')
      {
        if i > 0 {
          assert t[i] == TitleFrom(s[1..], IsCased(s[0]))[i - 1];
        }
      }
    }
  }

  /** Lower-case letters after a cased character stay as they are. */
  lemma {:induction false} TitleFromLowerWord(s: string)
    requires forall i :: 0 <= i < |s| ==> IsLower(s[i])
    ensures TitleFrom(s, true) == s
    decreases |s|
  {
    if s != [] {
      TitleFromLowerWord(s[1..]);
      assert s == [s[0]] + s[1..];
    }
  }

  /** Title-casing changes only the case of letters. */
  lemma TitleShape(s: string)
    ensures |Title(s)| == |s|
    ensures forall i :: 0 <= i < |s| && !IsCased(s[i]) ==> Title(s)[i] == s[i]
  {
    TitleFromKeeps(s, false);
  }

  lemma {:induction false} TitleFromKeeps(s: string, afterCased: bool)
    ensures |TitleFrom(s, afterCased)| == |s|
    ensures forall i :: 0 <= i < |s| && !IsCased(s[i]) ==> TitleFrom(s, afterCased)[i] == s[i]
    decreases |s|
  {
    if s != [] {
      TitleFromKeeps(s[1..], IsCased(s[0]));
      forall i | 0 <= i < |s| && !IsCased(s[i])
        ensures TitleFrom(s, afterCased)[i] == s[i]
      {
        if i > 0 {
          assert TitleFrom(s, afterCased)[i] == TitleFrom(s[1..], IsCased(s[0]))[i - 1];
          assert s[1..][i - 1] == s[i];
        }
      }
    }
  }

  lemma {:induction false} TitleFromConcat(x: string, y: string, afterCased: bool)
    requires x != []
    ensures TitleFrom(x + y, afterCased) == TitleFrom(x, afterCased) + TitleFrom(y, IsCased(x[|x| - 1]))
    decreases |x|
  {
    assert (x + y)[0] == x[0] && (x + y)[1..] == x[1..] + y;
    if |x| > 1 {
      TitleFromConcat(x[1..], y, IsCased(x[0]));
    }
  }

  /** Two lower-case words joined by an uncased character are both capitalised. */
  lemma TitleTwoWords(a: string, sep: char, b: string)
    requires a != [] && forall i :: 0 <= i < |a| ==> IsLower(a[i])
    requires b != [] && forall i :: 0 <= i < |b| ==> IsLower(b[i])
    requires !IsCased(sep)
    ensures Title(a + [sep] + b) == [UpperChar(a[0])] + a[1..] + [sep] + [UpperChar(b[0])] + b[1..]
  {
    assert a + [sep] + b == a + ([sep] + b);
    TitleFromConcat(a, [sep] + b, false);
    TitleLowerWord(a);
    TitleLowerWord(b);
    assert ([sep] + b)[1..] == b;
  }

  /** Every character of `s` is an ASCII lower-case letter, checked one at a
      time. */
  predicate LowerWord(s: string)
    decreases |s|
  {
    s == [] || (IsLower(s[0]) && LowerWord(s[1..]))
  }

  lemma {:induction false} LowerWordChars(s: string)
    requires LowerWord(s)
    ensures forall i :: 0 <= i < |s| ==> IsLower(s[i])
    decreases |s|
  {
    if s != [] {
      LowerWordChars(s[1..]);
      forall i | 1 <= i < |s|
        ensures IsLower(s[i])
      {
        assert s[i] == s[1..][i - 1];
      }
    }
  }

  /** The title of a lower-case word capitalises its first letter only. */
  lemma TitleLowerWord(s: string)
    requires s != [] && forall i :: 0 <= i < |s| ==> IsLower(s[i])
    ensures Title(s) == [UpperChar(s[0])] + s[1..]
  {
    TitleFromLowerWord(s[1..]);
  }

  /** The title of a lower-case word, given as `t`. */
  lemma LowerWordTitle(s: string, t: string)
    requires s != [] && LowerWord(s) && t == [UpperChar(s[0])] + s[1..]
    ensures Title(s) == t
  {
    LowerWordChars(s);
    TitleLowerWord(s);
  }

  lemma NoNewlineAfterCase(s: string)
    requires '\n' !in s
    ensures '\n' !in Lower(s) && '\n' !in Upper(s) && '\n' !in Title(s)
    ensures |Upper(s)| == |s| && |Title(s)| == |s|
  {
    TitleFromShape(s, false);
  }

  // ---------------------------------------------------------------------------
  // strip, replace, repetition

  function LStrip(s: string): string {
    if s != [] && IsSpace(s[0]) then LStrip(s[1..]) else s
  }

  function RStrip(s: string): string {
    if s != [] && IsSpace(s[|s| - 1]) then RStrip(s[..|s| - 1]) else s
  }

  /** `s.strip()` */
  function Strip(s: string): string {
    RStrip(LStrip(s))
  }

  predicate AllSpace(s: string) {
    forall i :: 0 <= i < |s| ==> IsSpace(s[i])
  }

  lemma {:induction false} LStripPadding(pad: string, s: string)
    requires AllSpace(pad)
    requires s == [] || !IsSpace(s[0])
    ensures LStrip(pad + s) == s
    decreases |pad|
  {
    if pad != [] {
      assert (pad + s)[1..] == pad[1..] + s;
      LStripPadding(pad[1..], s);
    }
  }

  lemma {:induction false} RStripPadding(s: string, pad: string)
    requires AllSpace(pad)
    requires s == [] || !IsSpace(s[|s| - 1])
    ensures RStrip(s + pad) == s
    decreases |pad|
  {
    if pad != [] {
      assert (s + pad)[..|s + pad| - 1] == s + pad[..|pad| - 1];
      RStripPadding(s, pad[..|pad| - 1]);
    }
  }

  lemma {:induction false} LStripChars(s: string)
    ensures forall c :: c in LStrip(s) ==> c in s
    decreases |s|
  {
    if s != [] && IsSpace(s[0]) {
      LStripChars(s[1..]);
    }
  }

  lemma {:induction false} RStripChars(s: string)
    ensures forall c :: c in RStrip(s) ==> c in s
    decreases |s|
  {
    if s != [] && IsSpace(s[|s| - 1]) {
      RStripChars(s[..|s| - 1]);
    }
  }

  /** Stripping keeps only characters of the input. */
  lemma StripSubsequence(s: string)
    ensures forall c :: c in Strip(s) ==> c in s
  {
    LStripChars(s);
    RStripChars(LStrip(s));
  }

  /** Stripping a string that is surrounded by whitespace and neither begins nor
      ends with whitespace gives back that string. */
  lemma StripPadded(front: string, s: string, back: string)
    requires AllSpace(front) && AllSpace(back)
    requires s != [] && !IsSpace(s[0]) && !IsSpace(s[|s| - 1])
    ensures Strip(front + s + back) == s
  {
    assert front + s + back == front + (s + back);
    LStripPadding(front, s + back);
    RStripPadding(s, back);
  }

  /** `s.replace(old, new)` for one-character `old` and `new` */
  function ReplaceChar(s: string, from: char, to: char): string {
    seq(|s|, i requires 0 <= i < |s| => if s[i] == from then to else s[i])
  }

  /** `c * n` for a one-character string `c` */
  function Repeat(c: char, n: nat): string {
    seq(n, _ => c)
  }

  // ---------------------------------------------------------------------------
  // split and join

  /** `s.split(sep)` for a one-character separator: the pieces between separators,
      always at least one. */
  function Split(s: string, sep: char): (pieces: seq<string>)
    ensures |pieces| >= 1
    decreases |s|
  {
    if s == [] then [""]
    else
      var rest := Split(s[1..], sep);
      if s[0] == sep then [""] + rest
      else [[s[0]] + rest[0]] + rest[1..]
  }

  /** `sep.join(parts)` */
  function Join(sep: string, parts: seq<string>): string
    decreases |parts|
  {
    if |parts| == 0 then ""
    else if |parts| == 1 then parts[0]
    else parts[0] + sep + Join(sep, parts[1..])
  }

  lemma {:induction false} SplitNoSeparator(s: string, sep: char)
    requires sep !in s
    ensures Split(s, sep) == [s]
    decreases |s|
  {
    if s != [] {
      SplitNoSeparator(s[1..], sep);
      assert s == [s[0]] + s[1..];
    }
  }

  /** No piece of a split contains the separator. */
  lemma {:induction false} SplitPiecesFree(s: string, sep: char)
    ensures forall i :: 0 <= i < |Split(s, sep)| ==> sep !in Split(s, sep)[i]
    decreases |s|
  {
    if s != [] {
      SplitPiecesFree(s[1..], sep);
    }
  }

  /** Splitting at one separator splits the two halves independently. */
  lemma {:induction false} SplitConcat(a: string, b: string, sep: char)
    ensures Split(a + [sep] + b, sep) == Split(a, sep) + Split(b, sep)
    decreases |a|
  {
    if a == [] {
      assert a + [sep] + b == [sep] + b;
      assert ([sep] + b)[1..] == b;
    } else {
      assert (a + [sep] + b)[1..] == a[1..] + [sep] + b;
      SplitConcat(a[1..], b, sep);
    }
  }

  /** Splitting the join of separator-free pieces gives back the pieces. */
  lemma {:induction false} SplitJoin(parts: seq<string>, sep: char)
    requires parts != []
    requires forall i :: 0 <= i < |parts| ==> sep !in parts[i]
    ensures Split(Join([sep], parts), sep) == parts
    decreases |parts|
  {
    if |parts| == 1 {
      SplitNoSeparator(parts[0], sep);
    } else {
      SplitJoin(parts[1..], sep);
      SplitConcat(parts[0], Join([sep], parts[1..]), sep);
      SplitNoSeparator(parts[0], sep);
      assert parts == [parts[0]] + parts[1..];
    }
  }

  /** The pieces of every part, one part after the other. */
  function SplitEach(parts: seq<string>, sep: char): seq<string>
    decreases |parts|
  {
    if parts == [] then [] else Split(parts[0], sep) + SplitEach(parts[1..], sep)
  }

  lemma {:induction false} SplitEachAppend(a: seq<string>, b: seq<string>, sep: char)
    ensures SplitEach(a + b, sep) == SplitEach(a, sep) + SplitEach(b, sep)
    decreases |a|
  {
    if a == [] {
      assert a + b == b;
    } else {
      assert (a + b)[0] == a[0];
      assert (a + b)[1..] == a[1..] + b;
      SplitEachAppend(a[1..], b, sep);
    }
  }

  /** A separator-free first line is split off as one piece. */
  lemma SplitFirstLine(a: string, b: string, sep: char)
    requires sep !in a
    ensures Split(a + [sep] + b, sep) == [a] + Split(b, sep)
  {
    SplitConcat(a, b, sep);
    SplitNoSeparator(a, sep);
  }

  /** Splitting a join at its separator splits each part in turn. */
  lemma {:induction false} SplitJoinEach(parts: seq<string>, sep: char)
    requires parts != []
    ensures Split(Join([sep], parts), sep) == SplitEach(parts, sep)
    decreases |parts|
  {
    if |parts| == 1 {
      assert parts[1..] == [];
    } else {
      SplitJoinEach(parts[1..], sep);
      SplitConcat(parts[0], Join([sep], parts[1..]), sep);
    }
  }

  /** Joining two non-empty lists is joining their joins. */
  /** A concatenation slices back into its two parts. */
  lemma SplitAt<T>(a: seq<T>, b: seq<T>)
    ensures (a + b)[..|a|] == a && (a + b)[|a|..] == b
  {
  }

  lemma {:induction false} JoinAppend(sep: string, a: seq<string>, b: seq<string>)
    requires a != [] && b != []
    ensures Join(sep, a + b) == Join(sep, a) + sep + Join(sep, b)
    decreases |a|
  {
    if |a| == 1 {
      assert (a + b)[1..] == b;
    } else {
      assert (a + b)[1..] == a[1..] + b;
      JoinAppend(sep, a[1..], b);
    }
  }

  // ---------------------------------------------------------------------------
  // Numbers, slices, truthiness

  function DigitChar(d: nat): char
    requires d < 10
  {
    ('0' as int + d) as char
  }

  /** `str(n)` for a natural number */
  function Decimal(n: nat): string
    decreases n
  {
    if n < 10 then [DigitChar(n)] else Decimal(n / 10) + [DigitChar(n % 10)]
  }

  /** `xs.index(x)`: the position of the first occurrence of `x` in `xs`. */
  function FirstIndex<T(==)>(xs: seq<T>, x: T): (k: nat)
    requires x in xs
    ensures k < |xs| && xs[k] == x
    ensures forall m :: 0 <= m < k ==> xs[m] != x
    decreases |xs|
  {
    if xs[0] == x then 0 else 1 + FirstIndex(xs[1..], x)
  }

  /** Appending a value does not move the first occurrence of an earlier one,
      and a value new to the sequence first occurs where it is appended. */
  lemma FirstIndexAppend<T>(xs: seq<T>, y: T, x: T)
    requires x in xs + [y]
    ensures x in xs ==> FirstIndex(xs + [y], x) == FirstIndex(xs, x)
    ensures x !in xs ==> FirstIndex(xs + [y], x) == |xs|
  {
    var k := FirstIndex(xs + [y], x);
    if x in xs {
      var k0 := FirstIndex(xs, x);
      assert (xs + [y])[k0] == x;
      assert k <= k0 < |xs|;
      assert xs[k] == (xs + [y])[k];
    } else {
      assert forall m :: 0 <= m < |xs| ==> (xs + [y])[m] == xs[m];
    }
  }

  /** The strings of a list none of whose items is None. */
  function Values(xs: seq<Option<string>>): (r: seq<string>)
    requires None !in xs
    ensures |r| == |xs| && forall i :: 0 <= i < |xs| ==> xs[i] == Some(r[i])
    decreases |xs|
  {
    if xs == [] then []
    else
      assert xs[0] in xs && xs == [xs[0]] + xs[1..];
      [xs[0].value] + Values(xs[1..])
  }

  /** The message of `sep.join(xs)` when item `i` is None. */
  function NoneItemMessage(i: nat): string {
    "sequence item " + Decimal(i) + ": expected str instance, NoneType found"
  }

  /** `sep.join(xs)` over a list that may hold None: TypeError naming the first
      None item, else the join of the strings. */
  function JoinChecked(sep: string, xs: seq<Option<string>>): (r: Result<string>)
    ensures r.Err? <==> None in xs
    ensures r.Err? ==> r.error == TypeError(NoneItemMessage(FirstIndex(xs, None)))
    ensures r.Ok? ==> r.value == Join(sep, Values(xs))
  {
    if None in xs then Err(TypeError(NoneItemMessage(FirstIndex(xs, None))))
    else Ok(Join(sep, Values(xs)))
  }

  /** `xs[:n]`: the first `n` elements when `n >= 0`; all but the last `-n` when
      `n < 0` (none when `-n` exceeds the length). */
  function SlicePrefix<T>(xs: seq<T>, n: int): seq<T> {
    if n >= 0 then (if n <= |xs| then xs[..n] else xs)
    else if |xs| + n >= 0 then xs[..|xs| + n]
    else []
  }

  /** `x or fallback` for an optional string: `None` and `""` are false. */
  function OrElse(x: Option<string>, fallback: string): string {
    if x.Some? && x.value != "" then x.value else fallback
  }

  /** `x or y` for two optional strings. */
  function OrOption(x: Option<string>, y: Option<string>): Option<string> {
    if x.Some? && x.value != "" then x else y
  }

  /** Python truthiness of an optional string. */
  predicate Truthy(x: Option<string>) {
    x.Some? && x.value != ""
  }

  // ---------------------------------------------------------------------------
  // pathlib

  /** `name.rfind(c)`: the last index of `c`, or -1 */
  function RFind(s: string, c: char): (i: int)
    ensures -1 <= i < |s|
    ensures i >= 0 ==> s[i] == c && c !in s[i + 1..]
    ensures i == -1 ==> c !in s
    decreases |s|
  {
    if s == [] then -1
    else if s[|s| - 1] == c then |s| - 1
    else RFind(s[..|s| - 1], c)
  }

  /** `Path(name).suffix`: from the last dot on, when that dot is neither the first
      nor the last character; otherwise empty. */
  function Suffix(name: string): string {
    var i := RFind(name, '.');
    if 0 < i < |name| - 1 then name[i..] else ""
  }

  /** `Path(name).stem`: the name without its suffix. */
  function Stem(name: string): string {
    var i := RFind(name, '.');
    if 0 < i < |name| - 1 then name[..i] else name
  }
}
