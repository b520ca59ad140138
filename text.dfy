/** The string handling the handlers rely on: Rust's `i32` range, `str::split(',')`,
    `str::split_whitespace`, `HeaderValue::to_str`, `i32` formatting with `{}` and
    `str::parse::<i32>()`. */
module Text {
  import opened Base

  const MinI32: int := -0x8000_0000
  const MaxI32: int := 0x7FFF_FFFF

  predicate InI32(x: int) { MinI32 <= x <= MaxI32 }

  /** Rust's `i32` (and Postgres `int4`). */
  type I32 = x: int | MinI32 <= x <= MaxI32

  // ---------------------------------------------------------------------------
  // str::split(sep)

  /** Number of occurrences of `c` in `s`. */
  function Count(s: string, c: char): nat
  {
    if s == [] then 0 else (if s[0] == c then 1 else 0) + Count(s[1..], c)
  }

  lemma {:induction false} CountAppend(a: string, b: string, c: char)
    ensures Count(a + b, c) == Count(a, c) + Count(b, c)
  {
    if a == [] {
      assert a + b == b;
    } else {
      assert (a + b)[1..] == a[1..] + b;
      CountAppend(a[1..], b, c);
    }
  }

  lemma {:induction false} CountAbsent(s: string, c: char)
    requires forall i :: 0 <= i < |s| ==> s[i] != c
    ensures Count(s, c) == 0
  {
    if s != [] {
      CountAbsent(s[1..], c);
    }
  }

  /** `s` has no `c` in it. */
  predicate Lacks(s: string, c: char)
  {
    forall i :: 0 <= i < |s| ==> s[i] != c
  }

  /** `s.split(sep).collect::<Vec<&str>>()`: the pieces between separators,
      empty pieces included, so there is always at least one. */
  function Split(s: string, sep: char): (fields: seq<string>)
    ensures |fields| >= 1
    ensures forall i :: 0 <= i < |fields| ==> Lacks(fields[i], sep)
  {
    if s == [] then [""]
    else
      var rest := Split(s[1..], sep);
      if s[0] == sep then [""] + rest
      else [[s[0]] + rest[0]] + rest[1..]
  }

  /** The pieces, glued back together with the separator between them. */
  function Join(fields: seq<string>, sep: char): string
    requires |fields| >= 1
  {
    if |fields| == 1 then fields[0] else fields[0] + [sep] + Join(fields[1..], sep)
  }

  /** A string without the separator is one field. */
  lemma {:induction false} SplitNoSep(s: string, sep: char)
    requires Lacks(s, sep)
    ensures Split(s, sep) == [s]
  {
    if s != [] {
      SplitNoSep(s[1..], sep);
      assert [s[0]] + s[1..] == s;
    }
  }

  /** How `Split` unfolds on a string with a first character. */
  lemma SplitCons(c: char, t: string, sep: char)
    ensures Split([c] + t, sep) ==
            if c == sep then [""] + Split(t, sep) else [[c] + Split(t, sep)[0]] + Split(t, sep)[1..]
  {
    assert ([c] + t)[1..] == t;
  }

  /** Putting a character other than the separator in front of both a
      string and its left part keeps a split of the string into that part
      and `right`: the character joins the first piece. */
  lemma ConsSplitChar(c: char, left: string, whole: string, right: string, sep: char)
    requires c != sep
    requires Split(whole, sep) == Split(left, sep) + Split(right, sep)
    ensures Split([c] + whole, sep) == Split([c] + left, sep) + Split(right, sep)
  {
    var rl, rr := Split(left, sep), Split(right, sep);
    var h := [c] + rl[0];
    assert Split([c] + whole, sep) == [h] + (rl + rr)[1..] by {
      SplitCons(c, whole, sep);
      assert (rl + rr)[0] == rl[0];
    }
    assert Split([c] + left, sep) == [h] + rl[1..] by {
      SplitCons(c, left, sep);
    }
    ReplaceHead(h, rl, rr);
  }

  lemma AppendAssoc<T>(xs: seq<T>, ys: seq<T>, zs: seq<T>)
    ensures xs + (ys + zs) == xs + ys + zs
  {
  }

  lemma AppendAssoc5<T>(a: seq<T>, b: seq<T>, c: seq<T>, d: seq<T>, e: seq<T>)
    ensures a + b + c + d + e == a + (b + (c + (d + e)))
  {
  }

  /** Replacing the first element of `xs` and then appending `ys` is the
      same as appending first. */
  lemma ReplaceHead<T>(h: T, xs: seq<T>, ys: seq<T>)
    requires |xs| >= 1
    ensures [h] + (xs + ys)[1..] == [h] + xs[1..] + ys
  {
    assert (xs + ys)[1..] == xs[1..] + ys;
  }

  /** The same with the separator in front: it adds an empty first piece. */
  lemma ConsSplitSep(left: string, whole: string, right: string, sep: char)
    requires Split(whole, sep) == Split(left, sep) + Split(right, sep)
    ensures Split([sep] + whole, sep) == Split([sep] + left, sep) + Split(right, sep)
  {
    var rl, rr := Split(left, sep), Split(right, sep);
    assert Split([sep] + whole, sep) == [""] + (rl + rr) by {
      SplitCons(sep, whole, sep);
    }
    assert Split([sep] + left, sep) == [""] + rl by {
      SplitCons(sep, left, sep);
    }
    AppendAssoc([""], rl, rr);
  }

  /** Splitting at a separator splits the two sides independently. */
  lemma {:induction false} SplitAround(a: string, b: string, sep: char)
    ensures Split(a + [sep] + b, sep) == Split(a, sep) + Split(b, sep)
  {
    if a == [] {
      assert a + [sep] + b == [sep] + b;
      assert Split([sep] + b, sep) == [""] + Split(b, sep) by {
        SplitCons(sep, b, sep);
      }
      assert Split(a, sep) == [""];
    } else {
      var t := a[1..];
      var w := t + [sep] + b;
      assert a == [a[0]] + t;
      assert a + [sep] + b == [a[0]] + w;
      SplitAround(t, b, sep);
      if a[0] == sep {
        ConsSplitSep(t, w, b, sep);
      } else {
        ConsSplitChar(a[0], t, w, b, sep);
      }
    }
  }

  /** There is one more piece than there are separators. */
  lemma {:induction false} SplitCount(s: string, sep: char)
    ensures |Split(s, sep)| == Count(s, sep) + 1
  {
    if s != [] {
      SplitCount(s[1..], sep);
    }
  }

  /** Splitting loses nothing: joining the pieces gives the string back. */
  lemma {:induction false} JoinSplit(s: string, sep: char)
    ensures Join(Split(s, sep), sep) == s
  {
    if s != [] {
      var rest := Split(s[1..], sep);
      JoinSplit(s[1..], sep);
      if s[0] == sep {
        assert ([""] + rest)[1..] == rest;
        assert s == [sep] + s[1..];
      } else if |rest| == 1 {
        assert s == [s[0]] + s[1..];
      } else {
        var fields := [[s[0]] + rest[0]] + rest[1..];
        assert fields[1..] == rest[1..];
        assert Join(rest, sep) == rest[0] + [sep] + Join(rest[1..], sep);
        assert s == [s[0]] + s[1..];
      }
    }
  }

  // ---------------------------------------------------------------------------
  // str::split_whitespace and HeaderValue::to_str

  /** ASCII white space as `char::is_whitespace` sees it (tab, line feed,
      vertical tab, form feed, carriage return, space). */
  predicate IsSpace(c: char) { c == ' ' || '\t' <= c <= '\r' }

  predicate NoSpace(s: string) { forall i :: 0 <= i < |s| ==> !IsSpace(s[i]) }

  /** `s` is white space only. */
  predicate Blank(s: string) { forall i :: 0 <= i < |s| ==> IsSpace(s[i]) }

  /** Length of the run of non-space characters that starts `s`. */
  function WordLength(s: string): (n: nat)
    ensures n <= |s|
    ensures forall i :: 0 <= i < n ==> !IsSpace(s[i])
    ensures n < |s| ==> IsSpace(s[n])
    ensures s != [] && !IsSpace(s[0]) ==> n >= 1
  {
    if s == [] || IsSpace(s[0]) then 0 else 1 + WordLength(s[1..])
  }

  /** `s.split_whitespace().collect::<Vec<&str>>()`. */
  function Words(s: string): (ws: seq<string>)
    ensures forall i :: 0 <= i < |ws| ==> ws[i] != [] && NoSpace(ws[i])
    ensures ws == [] <==> Blank(s)
    decreases |s|
  {
    if s == [] then []
    else if IsSpace(s[0]) then
      assert Blank(s) <==> Blank(s[1..]) by {
        assert forall i :: 1 <= i < |s| ==> s[i] == s[1..][i - 1];
      }
      Words(s[1..])
    else
      var n := WordLength(s);
      [s[..n]] + Words(s[n..])
  }

  lemma {:induction false} WordLengthOf(a: string, rest: string)
    requires a != [] && NoSpace(a)
    requires rest == [] || IsSpace(rest[0])
    ensures WordLength(a + rest) == |a|
  {
    assert (a + rest)[1..] == a[1..] + rest;
    if |a| > 1 {
      WordLengthOf(a[1..], rest);
    } else {
      assert a[1..] + rest == rest;
    }
  }

  /** A word followed by nothing or by white space comes out first, and the
      rest splits on its own. */
  lemma WordsCons(a: string, rest: string)
    requires a != [] && NoSpace(a)
    requires rest == [] || IsSpace(rest[0])
    ensures Words(a + rest) == [a] + Words(rest)
  {
    WordLengthOf(a, rest);
    assert (a + rest)[..|a|] == a && (a + rest)[|a|..] == rest;
  }

  /** Leading white space is skipped. */
  lemma {:induction false} WordsAfterBlank(p: string, s: string)
    requires Blank(p)
    ensures Words(p + s) == Words(s)
  {
    if p != [] {
      assert (p + s)[0] == p[0] && IsSpace(p[0]);
      assert (p + s)[1..] == p[1..] + s;
      assert Blank(p[1..]) by {
        assert forall i :: 0 <= i < |p[1..]| ==> p[1..][i] == p[i + 1];
      }
      WordsAfterBlank(p[1..], s);
    } else {
      assert p + s == s;
    }
  }

  /** A string that starts with a word: the word, then the rest. */
  lemma WordsHeadWord(s: string) returns (q: string)
    requires s != [] && !IsSpace(s[0])
    ensures s == Words(s)[0] + q
    ensures q == [] || IsSpace(q[0])
    ensures Words(q) == Words(s)[1..]
  {
    var n := WordLength(s);
    assert Words(s) == [s[..n]] + Words(s[n..]);
    q := s[n..];
  }

  /** Length of the run of white space that starts `s`. */
  function BlankLength(s: string): (n: nat)
    ensures n <= |s|
    ensures forall i :: 0 <= i < n ==> IsSpace(s[i])
    ensures n < |s| ==> !IsSpace(s[n])
  {
    if s == [] || !IsSpace(s[0]) then 0 else 1 + BlankLength(s[1..])
  }

  /** The converse: a string with a first word is white space, that word,
      and a rest that starts with white space (or is empty) and holds the
      other words. */
  lemma WordsHead(s: string) returns (p: string, q: string)
    requires Words(s) != []
    ensures Blank(p) && s == p + Words(s)[0] + q
    ensures q == [] || IsSpace(q[0])
    ensures Words(q) == Words(s)[1..]
  {
    var k := BlankLength(s);
    p := s[..k];
    var rest := s[k..];
    assert s == p + rest;
    WordsAfterBlank(p, rest);
    q := WordsHeadWord(rest);
    var w := Words(rest)[0];
    assert w == Words(s)[0];
    assert rest == w + q;
    AppendAssoc(p, w, q);
  }

  /** A string of one word splits into that word. */
  lemma {:induction false} WordsOfWord(t: string)
    requires t != [] && NoSpace(t)
    ensures Words(t) == [t]
  {
    assert t + [] == t;
    WordLengthOf(t, []);
    assert t[|t|..] == [];
  }

  /** The header an ordinary client sends splits into the scheme and the token. */
  lemma {:induction false} BearerWords(t: string)
    requires t != [] && NoSpace(t)
    ensures Words("Bearer " + t) == ["Bearer", t]
  {
    var s := "Bearer " + t;
    assert s == "Bearer" + (" " + t);
    WordLengthOf("Bearer", " " + t);
    assert s[..6] == "Bearer";
    assert s[6..] == " " + t;
    assert (" " + t)[1..] == t;
    WordsOfWord(t);
  }

  /** "Bearer" and a word, with white space before, between (at least one)
      and after, split into exactly those two words. */
  lemma BearerSplit(p: string, q: string, r: string, t: string)
    requires Blank(p) && Blank(q) && q != [] && Blank(r)
    requires t != [] && NoSpace(t)
    ensures Words(p + "Bearer" + q + t + r) == ["Bearer", t]
  {
    var a := t + r;
    assert Words(a) == [t] by {
      WordsCons(t, r);
      assert Words(r) == [];
    }
    var b := q + a;
    assert Words(b) == [t] by {
      WordsAfterBlank(q, a);
    }
    var c := "Bearer" + b;
    assert Words(c) == ["Bearer", t] by {
      assert b[0] == q[0];
      WordsCons("Bearer", b);
    }
    assert Words(p + c) == ["Bearer", t] by {
      WordsAfterBlank(p, c);
    }
    AppendAssoc5(p, "Bearer", q, t, r);
  }

  /** Conversely, a string that splits into "Bearer" and one more word is
      white space, "Bearer", white space (at least one), the word, white
      space. */
  lemma BearerShape(v: string, t: string) returns (p: string, q: string, r: string)
    requires Words(v) == ["Bearer", t]
    ensures Blank(p) && Blank(q) && q != [] && Blank(r)
    ensures v == p + "Bearer" + q + t + r
  {
    var q0;
    p, q0 := WordsHead(v);
    q, r := LoneWordShape(q0, t);
    Substitute(v, p, Words(v)[0], q0, q + t + r);
    AppendAssoc5(p, Words(v)[0], q, t, r);
    AppendAssoc(q, t, r);
  }

  /** A string that starts with white space and holds one word is white
      space (at least one), the word, white space. */
  lemma LoneWordShape(s: string, t: string) returns (q: string, r: string)
    requires s == [] || IsSpace(s[0])
    requires Words(s) == [t]
    ensures Blank(q) && q != [] && Blank(r)
    ensures s == q + t + r
  {
    q, r := WordsHead(s);
    assert Words(r) == [];
    assert t != [] && !IsSpace(t[0]);
  }

  lemma Substitute<T>(v: seq<T>, a: seq<T>, b: seq<T>, c: seq<T>, c': seq<T>)
    requires v == a + b + c && c == c'
    ensures v == a + b + c'
  {
  }

  /** `HeaderValue::to_str` succeeds exactly on visible ASCII and tab. */
  predicate VisibleAscii(s: string)
  {
    forall i :: 0 <= i < |s| ==> s[i] == '\t' || ' ' <= s[i] <= '~'
  }

  /** `value.to_str().unwrap_or("")`. */
  function HeaderText(v: string): (t: string)
    ensures VisibleAscii(t)
    ensures t == v <==> VisibleAscii(v)
    ensures t != v ==> t == ""
  {
    if VisibleAscii(v) then v else ""
  }

  // ---------------------------------------------------------------------------
  // i32 formatting with `{}` and parsing with `str::parse::<i32>()`

  predicate IsDigit(c: char) { '0' <= c <= '9' }

  predicate AllDigits(s: string) { forall i :: 0 <= i < |s| ==> IsDigit(s[i]) }

  function DigitValue(c: char): nat
    requires IsDigit(c)
  {
    (c as int) - ('0' as int)
  }

  function DigitChar(d: nat): char
    requires d < 10
  {
    (('0' as int) + d) as char
  }

  /** The number a string of decimal digits denotes. */
  function DigitsValue(s: string): nat
    requires AllDigits(s)
  {
    if s == [] then 0 else 10 * DigitsValue(s[..|s| - 1]) + DigitValue(s[|s| - 1])
  }

  /** Decimal digits of `n`, without leading zeros. */
  function FormatNat(n: nat): (s: string)
    ensures s != [] && AllDigits(s)
  {
    if n < 10 then [DigitChar(n)] else FormatNat(n / 10) + [DigitChar(n % 10)]
  }

  /** `format!("{}", n)` for an integer. */
  function FormatInt(n: int): string
  {
    if n < 0 then "-" + FormatNat(-n) else FormatNat(n)
  }

  /** `s.parse::<i32>().ok()`: an optional sign, then at least one decimal
      digit, and the value inside the `i32` range. */
  function ParseI32(s: string): (p: Option<I32>)
    ensures p.Some? ==> s != [] && AllDigits(s[1..]) && (IsDigit(s[0]) || (|s| >= 2 && (s[0] == '+' || s[0] == '-')))
    ensures p.Some? && s[0] != '-' ==> p.value >= 0
    ensures p.Some? && s[0] == '-' ==> p.value <= 0
  {
    if |s| >= 2 && (s[0] == '-' || s[0] == '+') && AllDigits(s[1..]) then
      var d: int := DigitsValue(s[1..]);
      var v := if s[0] == '-' then -d else d;
      if InI32(v) then Some(v) else None
    else if s != [] && AllDigits(s) && InI32(DigitsValue(s)) then Some(DigitsValue(s))
    else None
  }

  lemma {:induction false} DigitsRoundTrip(n: nat)
    ensures DigitsValue(FormatNat(n)) == n
  {
    if n >= 10 {
      var s := FormatNat(n);
      assert s[..|s| - 1] == FormatNat(n / 10);
      DigitsRoundTrip(n / 10);
    }
  }

  /** What `{}` prints for an `i32`, `parse::<i32>()` reads back. */
  lemma ParseFormat(n: I32)
    ensures ParseI32(FormatInt(n)) == Some(n)
  {
    var s := FormatInt(n);
    if n < 0 {
      var m: nat := -(n as int);
      assert s[0] == '-' && s[1..] == FormatNat(m);
      DigitsRoundTrip(m);
    } else {
      assert s == FormatNat(n);
      assert IsDigit(s[0]);
      DigitsRoundTrip(n);
    }
  }

  /** A leading zero does not change the number. */
  lemma {:induction false} LeadingZero(d: string)
    requires AllDigits(d)
    ensures AllDigits("0" + d) && DigitsValue("0" + d) == DigitsValue(d)
    decreases |d|
  {
    var z := "0" + d;
    if d != [] {
      assert z[..|z| - 1] == "0" + d[..|d| - 1];
      LeadingZero(d[..|d| - 1]);
    }
  }

  /** `parse::<i32>()` accepts a leading "+" and leading zeros: "+7" and
      "007" parse as 7, and so does any digit string with either. */
  lemma ParsePlusAndZeros(d: string)
    requires d != [] && AllDigits(d)
    ensures ParseI32("+" + d) == ParseI32(d)
    ensures ParseI32("0" + d) == ParseI32(d)
  {
    var z := "0" + d;
    assert ("+" + d)[1..] == d;
    LeadingZero(d);
  }

  /** A formatted integer never contains a comma. */
  lemma FormatIntHasNoComma(n: int)
    ensures Lacks(FormatInt(n), ',')
    ensures Count(FormatInt(n), ',') == 0
  {
    var s := FormatInt(n);
    if n < 0 {
      var m: nat := -n;
      assert forall i :: 1 <= i < |s| ==> s[i] == FormatNat(m)[i - 1];
    }
    CountAbsent(s, ',');
  }
}
