/** The handful of JavaScript string operations the pipeline relies on:
    `String.prototype.split` on a single character, `Array.prototype.join`,
    `String.prototype.trim`, and decimal rendering of integers. */
module Strings {

  /** WhiteSpace and LineTerminator code points as ECMAScript's `trim` removes them
      (section 22.1.3.32 of ECMA-262 with the Unicode "Zs" category written out). */
  predicate IsJsWhitespace(c: char) {
    || c == ' ' || c == '\t' || c == '\n' || c == '\r'
    || c == '\U{0B}' || c == '\U{0C}' || c == '\U{A0}' || c == '\U{FEFF}'
    || c == '\U{1680}' || ('\U{2000}' <= c <= '\U{200A}')
    || c == '\U{2028}' || c == '\U{2029}' || c == '\U{202F}' || c == '\U{205F}' || c == '\U{3000}'
  }

  /** Neither end of `s` is whitespace. */
  predicate IsTrimmed(s: string) {
    |s| == 0 || (!IsJsWhitespace(s[0]) && !IsJsWhitespace(s[|s| - 1]))
  }

  function TrimStart(s: string): (r: string)
    ensures |r| <= |s| && r == s[|s| - |r|..]
    ensures forall i :: 0 <= i < |s| - |r| ==> IsJsWhitespace(s[i])
    ensures |r| > 0 ==> !IsJsWhitespace(r[0])
    decreases |s|
  {
    if |s| > 0 && IsJsWhitespace(s[0]) then TrimStart(s[1..]) else s
  }

  function TrimEnd(s: string): (r: string)
    ensures |r| <= |s| && r == s[..|r|]
    ensures forall i :: |r| <= i < |s| ==> IsJsWhitespace(s[i])
    ensures |r| > 0 ==> !IsJsWhitespace(r[|r| - 1])
    decreases |s|
  {
    if |s| > 0 && IsJsWhitespace(s[|s| - 1]) then TrimEnd(s[..|s| - 1]) else s
  }

  /** `s.trim()`: leading and trailing whitespace removed, the inside untouched. */
  function Trim(s: string): (r: string)
    ensures |r| <= |s|
    ensures IsTrimmed(r)
  {
    TrimEnd(TrimStart(s))
  }

  /** A string that is already trimmed is its own trim. */
  lemma TrimOfTrimmed(s: string)
    requires IsTrimmed(s)
    ensures Trim(s) == s
  {
    if |s| > 0 {
      assert !IsJsWhitespace(s[0]);
      assert TrimStart(s) == s;
      assert !IsJsWhitespace(s[|s| - 1]);
      assert TrimEnd(s) == s;
    }
  }

  predicate AllWhitespace(s: string) {
    forall i :: 0 <= i < |s| ==> IsJsWhitespace(s[i])
  }

  /** Leading whitespace before a non-whitespace character is exactly what `trimStart` removes. */
  lemma {:induction false} TrimStartSkips(pre: string, rest: string)
    requires AllWhitespace(pre)
    requires |rest| > 0 && !IsJsWhitespace(rest[0])
    ensures TrimStart(pre + rest) == rest
    decreases |pre|
  {
    if |pre| > 0 {
      assert (pre + rest)[0] == pre[0];
      assert (pre + rest)[1..] == pre[1..] + rest;
      TrimStartSkips(pre[1..], rest);
    } else {
      assert pre + rest == rest;
    }
  }

  /** Trailing whitespace after a non-whitespace character is exactly what `trimEnd` removes. */
  lemma {:induction false} TrimEndSkips(rest: string, post: string)
    requires AllWhitespace(post)
    requires |rest| > 0 && !IsJsWhitespace(rest[|rest| - 1])
    ensures TrimEnd(rest + post) == rest
    decreases |post|
  {
    if |post| > 0 {
      var s := rest + post;
      assert s[|s| - 1] == post[|post| - 1];
      assert s[..|s| - 1] == rest + post[..|post| - 1];
      TrimEndSkips(rest, post[..|post| - 1]);
    } else {
      assert rest + post == rest;
    }
  }

  /** Whitespace around a non-empty trimmed core is exactly what `trim` removes. */
  lemma TrimPadded(pre: string, core: string, post: string)
    requires AllWhitespace(pre) && AllWhitespace(post)
    requires |core| > 0 && IsTrimmed(core)
    ensures Trim(pre + core + post) == core
  {
    assert pre + core + post == pre + (core + post);
    TrimStartSkips(pre, core + post);
    TrimEndSkips(core, post);
  }

  /** Trimming twice is trimming once. */
  lemma TrimIdempotent(s: string)
    ensures Trim(Trim(s)) == Trim(s)
  {
    TrimOfTrimmed(Trim(s));
  }

  /** `s.split(sep)` for a one-character separator: the maximal runs between
      separators, empty runs included; the empty string splits into `[""]`. */
  function Split(s: string, sep: char): (r: seq<string>)
    ensures |r| >= 1
    ensures forall i :: 0 <= i < |r| ==> sep !in r[i]
    decreases |s|
  {
    if |s| == 0 then [""]
    else
      var rest := Split(s[1..], sep);
      if s[0] == sep then [""] + rest
      else [[s[0]] + rest[0]] + rest[1..]
  }

  /** `parts.join(sep)`. */
  function Join(parts: seq<string>, sep: char): string
    decreases |parts|
  {
    if |parts| == 0 then ""
    else if |parts| == 1 then parts[0]
    else parts[0] + [sep] + Join(parts[1..], sep)
  }

  /** The first `sep`-separated token of `s`, that is `s.split(sep)[0]`. */
  function FirstToken(s: string, sep: char): (r: string)
    ensures sep !in r
  {
    Split(s, sep)[0]
  }

  /** Splitting then joining gives back the original string. */
  lemma {:induction false} JoinSplit(s: string, sep: char)
    ensures Join(Split(s, sep), sep) == s
    decreases |s|
  {
    if |s| > 0 {
      var rest := Split(s[1..], sep);
      JoinSplit(s[1..], sep);
      if s[0] == sep {
        assert Split(s, sep) == [""] + rest;
        assert ([""] + rest)[1..] == rest;
      } else {
        var r := Split(s, sep);
        assert r == [[s[0]] + rest[0]] + rest[1..];
        if |rest| == 1 {
          assert s == [s[0]] + s[1..];
        } else {
          assert r[1..] == rest[1..];
          assert Join(rest, sep) == rest[0] + [sep] + Join(rest[1..], sep);
          assert s == [s[0]] + s[1..];
        }
      }
    }
  }

  /** A separator-free string splits into itself alone. */
  lemma {:induction false} SplitNoSeparator(s: string, sep: char)
    requires sep !in s
    ensures Split(s, sep) == [s]
    decreases |s|
  {
    if |s| > 0 {
      assert sep !in s[1..];
      SplitNoSeparator(s[1..], sep);
      assert s == [s[0]] + s[1..];
    }
  }

  /** Splitting distributes over a separator. */
  lemma {:induction false} SplitAround(a: string, b: string, sep: char)
    ensures Split(a + [sep] + b, sep) == Split(a, sep) + Split(b, sep)
    decreases |a|
  {
    var s := a + [sep] + b;
    if |a| == 0 {
      assert s == [sep] + b;
      assert s[1..] == b;
    } else {
      assert s[0] == a[0];
      assert s[1..] == a[1..] + [sep] + b;
      SplitAround(a[1..], b, sep);
    }
  }

  /** Joining separator-free parts and splitting again gives the parts back. */
  lemma {:induction false} SplitJoin(parts: seq<string>, sep: char)
    requires |parts| >= 1
    requires forall i :: 0 <= i < |parts| ==> sep !in parts[i]
    ensures Split(Join(parts, sep), sep) == parts
    decreases |parts|
  {
    SplitNoSeparator(parts[0], sep);
    if |parts| > 1 {
      SplitJoin(parts[1..], sep);
      SplitAround(parts[0], Join(parts[1..], sep), sep);
      assert parts == [parts[0]] + parts[1..];
    }
  }

  /** The first token does not change when more text follows a separator. */
  lemma FirstTokenExtend(a: string, b: string, sep: char)
    ensures FirstToken(a + [sep] + b, sep) == FirstToken(a, sep)
  {
    SplitAround(a, b, sep);
  }

  /** The first space-separated token of a trimmed sentence that opens with a word and
      a space is that word, whatever follows. */
  lemma FirstWordOfSentence(word: string, rest: string)
    requires |word| > 0 && AllSolid(word)
    ensures FirstToken(Trim(word + " " + rest), ' ') == word
  {
    var s := word + " " + rest;
    assert s[0] == word[0];
    assert TrimStart(s) == s;
    var t := TrimEnd(s);
    assert s[|word| - 1] == word[|word| - 1];
    assert |t| >= |word|;
    assert t == word + t[|word|..];
    assert ' ' !in word;
    FirstTokenOf(word, t[|word|..], ' ');
  }

  /** No character of `s` is whitespace. */
  predicate AllSolid(s: string) {
    forall i :: 0 <= i < |s| ==> !IsJsWhitespace(s[i])
  }

  /** A separator-free word followed by a separator, or by nothing, is the first token. */
  lemma FirstTokenOf(w: string, tail: string, sep: char)
    requires sep !in w
    requires |tail| == 0 || tail[0] == sep
    ensures FirstToken(w + tail, sep) == w
  {
    SplitNoSeparator(w, sep);
    if |tail| == 0 {
      assert w + tail == w;
    } else {
      assert w + tail == w + [sep] + tail[1..];
      FirstTokenExtend(w, tail[1..], sep);
    }
  }

  /** Joining one more part appends a separator and the part. */
  lemma {:induction false} JoinSnoc(xs: seq<string>, y: string, sep: char)
    requires |xs| >= 1
    ensures Join(xs + [y], sep) == Join(xs, sep) + [sep] + y
    decreases |xs|
  {
    if |xs| > 1 {
      JoinSnoc(xs[1..], y, sep);
      assert (xs + [y])[1..] == xs[1..] + [y];
    }
  }

  /** Parts that are all empty join into separators only. */
  lemma {:induction false} JoinOfEmpties(parts: seq<string>, sep: char)
    requires forall i :: 0 <= i < |parts| ==> parts[i] == ""
    ensures forall j :: 0 <= j < |Join(parts, sep)| ==> Join(parts, sep)[j] == sep
    decreases |parts|
  {
    if |parts| > 1 {
      JoinOfEmpties(parts[1..], sep);
    }
  }

  /** A string made only of separators splits into empty parts only. */
  lemma {:induction false} SplitOfSeparators(s: string, sep: char)
    requires forall j :: 0 <= j < |s| ==> s[j] == sep
    ensures forall i :: 0 <= i < |Split(s, sep)| ==> Split(s, sep)[i] == ""
    decreases |s|
  {
    if |s| > 0 {
      SplitOfSeparators(s[1..], sep);
    }
  }

  function DigitChar(d: nat): (c: char)
    requires d < 10
    ensures '0' <= c <= '9'
    ensures c as int - '0' as int == d
  {
    (d + '0' as int) as char
  }

  /** Plain decimal digit text of a natural number, with no exponent and no rounding. */
  function NatToString(n: nat): (r: string)
    ensures |r| >= 1
    ensures forall i :: 0 <= i < |r| ==> '0' <= r[i] <= '9'
    ensures r[0] == '0' ==> n == 0
    decreases n
  {
    if n < 10 then [DigitChar(n)] else NatToString(n / 10) + [DigitChar(n % 10)]
  }

  /** Decimal rendering of an integer, with a leading '-' when negative. */
  function IntToString(n: int): (r: string)
    ensures |r| >= 1
    ensures (r[0] == '-') <==> n < 0
  {
    if n < 0 then "-" + NatToString(-n) else NatToString(n)
  }
}
