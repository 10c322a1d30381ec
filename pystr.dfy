/**
  The Python `str` built-ins the bot relies on, written out as small functions:
  `isspace`, `strip`, `lower`, `isdigit`, `zfill`, `lstrip("0")`, `split()`,
  `sep.join`, `int(s)` and `str(n)`; and `split(sep)`, which the bot does not
  call, to state that a joined context splits back into its lines.
  Whitespace is Python's own `isspace` set; letters are lowered in ASCII only;
  digits are ASCII only.
*/
module PyStr {
  import opened Wrappers

  /** The characters for which Python's `str.isspace()` holds. */
  predicate IsSpace(c: char) {
    c == ' ' || ('\t' <= c <= '\r') || ('\U{1c}' <= c <= '\U{1f}')
    || c == '\U{85}' || c == '\U{a0}' || c == '\U{1680}'
    || ('\U{2000}' <= c <= '\U{200a}') || c == '\U{2028}' || c == '\U{2029}'
    || c == '\U{202f}' || c == '\U{205f}' || c == '\U{3000}'
  }

  predicate IsAsciiDigit(c: char) { '0' as int <= c as int <= '9' as int }

  /** `s.lstrip()`: drop leading whitespace. */
  function LStrip(s: string): (r: string)
    ensures |r| <= |s|
    ensures r == [] || !IsSpace(r[0])
  {
    if s != [] && IsSpace(s[0]) then LStrip(s[1..]) else s
  }

  /** `s.rstrip()`: drop trailing whitespace. */
  function RStrip(s: string): (r: string)
    ensures |r| <= |s| && r == s[..|r|]
    ensures r == [] || !IsSpace(r[|r| - 1])
  {
    if s != [] && IsSpace(s[|s| - 1]) then RStrip(s[..|s| - 1]) else s
  }

  /** `s.strip()`: drop leading and trailing whitespace. */
  function Strip(s: string): (r: string)
    ensures r == [] || (!IsSpace(r[0]) && !IsSpace(r[|r| - 1]))
  {
    RStrip(LStrip(s))
  }

  /** `s` is its `lstrip()` behind a run of whitespace. */
  lemma {:induction false} LStripParts(s: string) returns (front: string)
    ensures s == front + LStrip(s)
    ensures forall i :: 0 <= i < |front| ==> IsSpace(front[i])
  {
    if s != [] && IsSpace(s[0]) {
      var f := LStripParts(s[1..]);
      front := [s[0]] + f;
    } else {
      front := [];
    }
  }

  /** `s` is its `rstrip()` followed by a run of whitespace. */
  lemma {:induction false} RStripParts(s: string) returns (back: string)
    ensures s == RStrip(s) + back
    ensures forall i :: 0 <= i < |back| ==> IsSpace(back[i])
  {
    if s != [] && IsSpace(s[|s| - 1]) {
      var b := RStripParts(s[..|s| - 1]);
      back := b + [s[|s| - 1]];
    } else {
      back := [];
    }
  }

  /** A string whose first and last characters are not whitespace is its own strip. */
  lemma StripTrimmed(s: string)
    requires s == [] || (!IsSpace(s[0]) && !IsSpace(s[|s| - 1]))
    ensures Strip(s) == s
  {
  }

  lemma StripIdempotent(s: string)
    ensures Strip(Strip(s)) == Strip(s)
  {
    StripTrimmed(Strip(s));
  }

  function LowerChar(c: char): (d: char)
  {
    if 'A' <= c <= 'Z' then (c as int - 'A' as int + 'a' as int) as char else c
  }

  /** `s.lower()`, ASCII letters only. */
  function Lower(s: string): (r: string)
    ensures |r| == |s|
    ensures forall i :: 0 <= i < |s| ==> r[i] == LowerChar(s[i])
  {
    seq(|s|, i requires 0 <= i < |s| => LowerChar(s[i]))
  }

  /** `s.isdigit()`: non-empty and every character a digit. */
  predicate IsDigit(s: string) {
    |s| > 0 && forall i :: 0 <= i < |s| ==> IsAsciiDigit(s[i])
  }

  function Zeros(n: nat): (z: string)
    ensures |z| == n && forall i :: 0 <= i < n ==> z[i] == '0'
  {
    seq(n, _ => '0')
  }

  /** `s.zfill(width)`: pad on the left with '0' up to `width`, after a leading sign. */
  function ZFill(s: string, width: nat): (r: string)
    ensures |r| == if |s| < width then width else |s|
  {
    if |s| >= width then s
    else if |s| > 0 && (s[0] == '+' || s[0] == '-') then [s[0]] + Zeros(width - |s|) + s[1..]
    else Zeros(width - |s|) + s
  }

  /** `s.lstrip("0")`. */
  function LStripZeros(s: string): (r: string)
    ensures |r| <= |s|
    ensures r == [] || r[0] != '0'
  {
    if s != [] && s[0] == '0' then LStripZeros(s[1..]) else s
  }

  /** Lowering keeps whitespace as whitespace and everything else as non-whitespace. */
  lemma LowerCharSpace(c: char)
    ensures IsSpace(LowerChar(c)) == IsSpace(c)
    ensures LowerChar(LowerChar(c)) == LowerChar(c)
  {
  }

  /** A digit string stays a digit string when padded. */
  lemma ZFillDigits(s: string, width: nat)
    requires IsDigit(s)
    ensures |s| < width ==> ZFill(s, width) == Zeros(width - |s|) + s
    ensures IsDigit(ZFill(s, width))
  {
    assert IsAsciiDigit(s[0]);
  }

  /** Zero-padding an already padded string changes nothing. */
  lemma ZFillIdempotent(s: string, width: nat)
    ensures ZFill(ZFill(s, width), width) == ZFill(s, width)
  {
  }

  lemma ZerosAdd(m: nat, n: nat)
    ensures Zeros(m) + Zeros(n) == Zeros(m + n)
  {
  }

  /** A string is its `lstrip("0")` behind a run of zeros. */
  lemma {:induction false} LStripZerosParts(s: string) returns (k: nat)
    ensures s == Zeros(k) + LStripZeros(s)
  {
    if s != [] && s[0] == '0' {
      var k' := LStripZerosParts(s[1..]);
      k := k' + 1;
      ZerosAdd(1, k');
      assert Zeros(k) + LStripZeros(s) == ['0'] + (Zeros(k') + LStripZeros(s[1..]));
    } else {
      k := 0;
      assert Zeros(0) + s == s;
    }
  }

  /** Leading zeros put in front of a string are stripped again by `lstrip("0")`. */
  lemma {:induction false} LStripZerosPad(m: nat, t: string)
    ensures LStripZeros(Zeros(m) + t) == LStripZeros(t)
  {
    if m == 0 {
      assert Zeros(0) + t == t;
    } else {
      var u := Zeros(m) + t;
      assert u[0] == '0';
      assert u[1..] == Zeros(m - 1) + t;
      LStripZerosPad(m - 1, t);
    }
  }

  /** Dropping leading zeros twice is dropping them once. */
  lemma LStripZerosIdempotent(s: string)
    ensures LStripZeros(LStripZeros(s)) == LStripZeros(s)
  {
    var t := LStripZeros(s);
    var k := LStripZerosParts(t);
    if k > 0 {
      assert t[0] == '0';
    }
  }

  /** A digit string no longer than `width` is padded by plain zeros in front. */
  lemma ZFillDigitsPad(a: string, width: nat)
    requires IsDigit(a) && |a| <= width
    ensures ZFill(a, width) == Zeros(width - |a|) + a
  {
    if |a| == width {
      assert Zeros(0) + a == a;
    } else {
      assert IsAsciiDigit(a[0]);
    }
  }

  lemma ZerosPrefix(m: nat, n: nat, t: string)
    ensures Zeros(m) + (Zeros(n) + t) == Zeros(m + n) + t
  {
    ZerosAdd(m, n);
    assert Zeros(m) + (Zeros(n) + t) == (Zeros(m) + Zeros(n)) + t;
  }

  /** `t` behind as many zeros as make it `width` long. */
  function Padded(t: string, width: nat): (r: string)
    requires |t| <= width
    ensures |r| == width
  {
    Zeros(width - |t|) + t
  }

  /** Zeros in front of zeros in front of `t` are `t` padded. */
  lemma ZerosPadded(a: string, k: nat, t: string, width: nat)
    requires a == Zeros(k) + t && |a| <= width
    ensures Zeros(width - |a|) + a == Padded(t, width)
  {
    ZerosPrefix(width - |a|, k, t);
  }

  /** A digit string padded to `width` is its significant digits behind zeros. */
  lemma ZFillDigitsForm(a: string, width: nat)
    requires IsDigit(a) && |a| <= width
    ensures ZFill(a, width) == Padded(LStripZeros(a), width)
  {
    var k := LStripZerosParts(a);
    ZFillDigitsPad(a, width);
    ZerosPadded(a, k, LStripZeros(a), width);
  }

  /** Padding a digit string and then dropping leading zeros is just dropping them. */
  lemma ZFillDigitsUnpad(a: string, width: nat)
    requires IsDigit(a) && |a| <= width
    ensures LStripZeros(ZFill(a, width)) == LStripZeros(a)
  {
    var t := LStripZeros(a);
    ZFillDigitsForm(a, width);
    LStripZerosPad(width - |t|, t);
    LStripZerosIdempotent(a);
    calc {
      LStripZeros(ZFill(a, width));
      LStripZeros(Padded(t, width));
      LStripZeros(Zeros(width - |t|) + t);
      LStripZeros(t);
      t;
    }
  }

  lemma ZFillDigitsAgree(a: string, b: string, width: nat)
    requires IsDigit(a) && IsDigit(b) && |a| <= width && |b| <= width
    requires LStripZeros(a) == LStripZeros(b)
    ensures ZFill(a, width) == ZFill(b, width)
  {
    ZFillDigitsForm(a, width);
    ZFillDigitsForm(b, width);
    calc {
      ZFill(a, width);
      Padded(LStripZeros(a), width);
      Padded(LStripZeros(b), width);
      ZFill(b, width);
    }
  }

  /**
    For digit strings no longer than `width`, padding both to `width` makes them
    equal exactly when they agree once their leading zeros are stripped.
  */
  lemma ZFillDigitsEquiv(a: string, b: string, width: nat)
    requires IsDigit(a) && IsDigit(b) && |a| <= width && |b| <= width
    ensures ZFill(a, width) == ZFill(b, width) <==> LStripZeros(a) == LStripZeros(b)
  {
    var za, zb := ZFill(a, width), ZFill(b, width);
    ZFillDigitsUnpad(a, width);
    ZFillDigitsUnpad(b, width);
    if LStripZeros(a) == LStripZeros(b) {
      ZFillDigitsAgree(a, b, width);
    }
  }

  /** Padding a string with no whitespace at either end leaves none there either. */
  lemma ZFillTrimmed(s: string, width: nat)
    requires width > 0
    requires s == [] || (!IsSpace(s[0]) && !IsSpace(s[|s| - 1]))
    ensures Strip(ZFill(s, width)) == ZFill(s, width)
  {
    var z := ZFill(s, width);
    if |s| < width {
      assert z[0] == '0' || z[0] == s[0];
      assert z[|z| - 1] == '0' || z[|z| - 1] == s[|s| - 1];
    }
    StripTrimmed(z);
  }

  /** Padding a lowered string gives a string that lowering leaves alone. */
  lemma LowerZFillLower(s: string, width: nat)
    ensures Lower(ZFill(Lower(s), width)) == ZFill(Lower(s), width)
  {
    var l := Lower(s);
    var z := ZFill(l, width);
    forall i | 0 <= i < |z| ensures LowerChar(z[i]) == z[i] {
      if |l| >= width {
        LowerCharSpace(s[i]);
      } else if |l| > 0 && (l[0] == '+' || l[0] == '-') {
        if i > width - |l| { LowerCharSpace(s[i - (width - |l|)]); }
      } else if i >= width - |l| {
        LowerCharSpace(s[i - (width - |l|)]);
      }
    }
  }

  /** Lowering a string with no whitespace at either end leaves none there either. */
  lemma LowerTrimmed(s: string)
    requires s == [] || (!IsSpace(s[0]) && !IsSpace(s[|s| - 1]))
    ensures Strip(Lower(s)) == Lower(s)
  {
    if s != [] {
      LowerCharSpace(s[0]);
      LowerCharSpace(s[|s| - 1]);
    }
    StripTrimmed(Lower(s));
  }

  /** A word of `split()`: non-empty and free of whitespace. */
  predicate IsWord(w: string) {
    |w| > 0 && forall i :: 0 <= i < |w| ==> !IsSpace(w[i])
  }

  /** The pending word `cur`, if any, as a list of words. */
  function Flush(cur: string): seq<string> {
    if cur == [] then [] else [cur]
  }

  /** The words of `s`, where `cur` is the word being read when `s` starts. */
  function Words(s: string, cur: string): seq<string>
    decreases |s|
  {
    if s == [] then Flush(cur)
    else if IsSpace(s[0]) then Flush(cur) + Words(s[1..], [])
    else Words(s[1..], cur + [s[0]])
  }

  /** `s.split()`: the maximal runs of non-whitespace characters, in order. */
  function Split(s: string): seq<string> {
    Words(s, [])
  }

  /** The pieces of `s` between occurrences of `sep`; `cur` is the piece being read. */
  function Pieces(sep: char, s: string, cur: string): seq<string>
    decreases |s|
  {
    if s == [] then [cur]
    else if s[0] == sep then [cur] + Pieces(sep, s[1..], [])
    else Pieces(sep, s[1..], cur + [s[0]])
  }

  /** `s.split(sep)` for a one-character separator. */
  function SplitOn(sep: char, s: string): seq<string> {
    Pieces(sep, s, [])
  }

  /** `sep.join(parts)` for a one-character separator. */
  function JoinWith(sep: char, parts: seq<string>): string
  {
    if |parts| == 0 then ""
    else if |parts| == 1 then parts[0]
    else parts[0] + [sep] + JoinWith(sep, parts[1..])
  }

  /** Every word `split()` returns is non-empty and free of whitespace. */
  lemma {:induction false} WordsAreWords(s: string, cur: string)
    requires forall i :: 0 <= i < |cur| ==> !IsSpace(cur[i])
    ensures forall i :: 0 <= i < |Words(s, cur)| ==> IsWord(Words(s, cur)[i])
    decreases |s|
  {
    if s != [] {
      if IsSpace(s[0]) {
        WordsAreWords(s[1..], []);
      } else {
        WordsAreWords(s[1..], cur + [s[0]]);
      }
    }
  }

  lemma SplitAreWords(s: string)
    ensures forall i :: 0 <= i < |Split(s)| ==> IsWord(Split(s)[i])
  {
    WordsAreWords(s, []);
  }

  /** Reading a run of non-whitespace only extends the pending word. */
  lemma {:induction false} WordsRun(w: string, x: string, cur: string)
    requires forall i :: 0 <= i < |w| ==> !IsSpace(w[i])
    ensures Words(w + x, cur) == Words(x, cur + w)
    decreases |w|
  {
    if w == [] {
      assert w + x == x && cur + w == cur;
    } else {
      assert (w + x)[0] == w[0];
      assert (w + x)[1..] == w[1..] + x;
      WordsRun(w[1..], x, cur + [w[0]]);
      assert cur + [w[0]] + w[1..] == cur + w;
    }
  }

  /** Reading only whitespace just ends the pending word. */
  lemma {:induction false} WordsSpace(sp: string, cur: string)
    requires forall i :: 0 <= i < |sp| ==> IsSpace(sp[i])
    ensures Words(sp, cur) == Flush(cur)
    decreases |sp|
  {
    if sp != [] {
      WordsSpace(sp[1..], []);
    }
  }

  /** Whitespace in front of a string does not change its words. */
  lemma {:induction false} SplitLeadingSpace(sp: string, u: string)
    requires forall i :: 0 <= i < |sp| ==> IsSpace(sp[i])
    ensures Split(sp + u) == Split(u)
    decreases |sp|
  {
    if sp == [] {
      assert sp + u == u;
    } else {
      assert (sp + u)[0] == sp[0];
      assert (sp + u)[1..] == sp[1..] + u;
      SplitLeadingSpace(sp[1..], u);
    }
  }

  /** Whitespace at the end of a string does not change its words. */
  lemma {:induction false} WordsTrailingSpace(u: string, sp: string, cur: string)
    requires forall i :: 0 <= i < |sp| ==> IsSpace(sp[i])
    ensures Words(u + sp, cur) == Words(u, cur)
    decreases |u|
  {
    if u == [] {
      assert u + sp == sp;
      WordsSpace(sp, cur);
    } else {
      assert (u + sp)[0] == u[0];
      assert (u + sp)[1..] == u[1..] + sp;
      if IsSpace(u[0]) {
        WordsTrailingSpace(u[1..], sp, []);
      } else {
        WordsTrailingSpace(u[1..], sp, cur + [u[0]]);
      }
    }
  }

  /** `s` is its strip with whitespace on either side. */
  lemma StripParts(s: string) returns (front: string, back: string)
    ensures s == front + Strip(s) + back
    ensures forall i :: 0 <= i < |front| ==> IsSpace(front[i])
    ensures forall i :: 0 <= i < |back| ==> IsSpace(back[i])
  {
    front := LStripParts(s);
    back := RStripParts(LStrip(s));
  }

  /** `s.strip().split()` has the same words as `s.split()`. */
  lemma SplitStrip(s: string)
    ensures Split(Strip(s)) == Split(s)
  {
    var front, back := StripParts(s);
    var m := Strip(s);
    assert s == front + (m + back);
    SplitLeadingSpace(front, m + back);
    WordsTrailingSpace(m, back, []);
  }

  /** Joining words with one space and splitting again gives the words back. */
  lemma {:induction false} SplitJoin(ws: seq<string>)
    requires forall i :: 0 <= i < |ws| ==> IsWord(ws[i])
    ensures Split(JoinWith(' ', ws)) == ws
  {
    if |ws| == 1 {
      WordsRun(ws[0], [], []);
      assert ws[0] + [] == ws[0] && [] + ws[0] == ws[0];
      assert ws == [ws[0]];
    } else if |ws| > 1 {
      var w := ws[0];
      var rest := JoinWith(' ', ws[1..]);
      assert w + [' '] + rest == w + ([' '] + rest);
      WordsRun(w, [' '] + rest, []);
      assert [] + w == w;
      assert ([' '] + rest)[1..] == rest;
      SplitJoin(ws[1..]);
      assert ws == [w] + ws[1..];
    }
  }

  /** Reading a run free of `sep` only extends the pending piece. */
  lemma {:induction false} PiecesRun(sep: char, w: string, x: string, cur: string)
    requires sep !in w
    ensures Pieces(sep, w + x, cur) == Pieces(sep, x, cur + w)
    decreases |w|
  {
    if w == [] {
      assert w + x == x && cur + w == cur;
    } else {
      assert (w + x)[0] == w[0];
      assert (w + x)[1..] == w[1..] + x;
      PiecesRun(sep, w[1..], x, cur + [w[0]]);
      assert cur + [w[0]] + w[1..] == cur + w;
    }
  }

  /** Joining pieces free of `sep` with `sep` and splitting on `sep` gives the pieces back. */
  lemma {:induction false} SplitOnJoin(sep: char, parts: seq<string>)
    requires |parts| > 0
    requires forall i :: 0 <= i < |parts| ==> sep !in parts[i]
    ensures SplitOn(sep, JoinWith(sep, parts)) == parts
  {
    var p := parts[0];
    if |parts| == 1 {
      PiecesRun(sep, p, [], []);
      assert p + [] == p && [] + p == p;
    } else {
      var rest := JoinWith(sep, parts[1..]);
      assert p + [sep] + rest == p + ([sep] + rest);
      PiecesRun(sep, p, [sep] + rest, []);
      assert [] + p == p;
      assert ([sep] + rest)[1..] == rest;
      SplitOnJoin(sep, parts[1..]);
      assert parts == [p] + parts[1..];
    }
  }

  /** Decimal value of a string of digits. */
  function DigitsValue(s: string): (n: nat)
    requires forall i :: 0 <= i < |s| ==> IsAsciiDigit(s[i])
  {
    if s == [] then 0
    else
      assert IsAsciiDigit(s[|s| - 1]);
      DigitsValue(s[..|s| - 1]) * 10 + (s[|s| - 1] as int - '0' as int)
  }

  /** `int(s)` on a string: surrounding whitespace, an optional sign, then digits. */
  function ParseInt(s: string): (r: Option<int>)
  {
    var t := Strip(s);
    if |t| > 0 && (t[0] == '-' || t[0] == '+') then
      if IsDigit(t[1..]) then
        var v: int := DigitsValue(t[1..]);
        Some(if t[0] == '-' then -v else v)
      else None
    else if IsDigit(t) then Some(DigitsValue(t))
    else None
  }

  function DigitChar(d: nat): (c: char)
    requires d < 10
    ensures IsAsciiDigit(c) && c as int - '0' as int == d
  {
    ('0' as int + d) as char
  }

  /** `str(n)` for a natural number. */
  function ShowNat(n: nat): (s: string)
    ensures IsDigit(s)
  {
    if n < 10 then [DigitChar(n)] else ShowNat(n / 10) + [DigitChar(n % 10)]
  }

  /** `str(n)` for an integer. */
  function ShowInt(n: int): (s: string)
  {
    if n < 0 then "-" + ShowNat(-n) else ShowNat(n)
  }

  lemma {:induction false} DigitsValueShowNat(n: nat)
    ensures DigitsValue(ShowNat(n)) == n
  {
    if n >= 10 {
      var s := ShowNat(n);
      assert s[..|s| - 1] == ShowNat(n / 10);
      DigitsValueShowNat(n / 10);
    }
  }

  /** `int(str(n)) == n`. */
  lemma ParseShowInt(n: int)
    ensures ParseInt(ShowInt(n)) == Some(n)
  {
    var s := ShowInt(n);
    StripTrimmed(s);
    DigitsValueShowNat(if n < 0 then -n else n);
    if n < 0 {
      assert s[1..] == ShowNat(-n);
    }
  }
}
