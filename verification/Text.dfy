/** The string operations of the Go and Python standard libraries that the repository relies on,
    and the laws about them that the other modules use. */
module Text {

  /** Go's `strings.Split(s, sep)` for a nonempty separator: cut at the leftmost non-overlapping occurrences. */
  function Split(s: string, sep: string): (parts: seq<string>)
    requires sep != ""
    ensures |parts| >= 1
    decreases |s|
  {
    if |s| < |sep| then [s]
    else if sep <= s then [""] + Split(s[|sep|..], sep)
    else
      var rest := Split(s[1..], sep);
      [[s[0]] + rest[0]] + rest[1..]
  }

  /** Go's `strings.Join`. */
  function Join(parts: seq<string>, sep: string): string
  {
    if |parts| == 0 then ""
    else if |parts| == 1 then parts[0]
    else parts[0] + sep + Join(parts[1..], sep)
  }

  /** Go's `strings.ReplaceAll` and Python's `str.replace` for a nonempty pattern. */
  function ReplaceAll(s: string, pat: string, repl: string): string
    requires pat != ""
    decreases |s|
  {
    if |s| < |pat| then s
    else if pat <= s then repl + ReplaceAll(s[|pat|..], pat, repl)
    else [s[0]] + ReplaceAll(s[1..], pat, repl)
  }

  /** Does `sub` occur somewhere in `s`? */
  predicate Contains(s: string, sub: string)
    decreases |s|
  {
    sub <= s || (s != "" && Contains(s[1..], sub))
  }

  predicate OccursAt(s: string, pat: string, i: int) {
    0 <= i && i + |pat| <= |s| && s[i..i + |pat|] == pat
  }

  function Spaces(n: nat): string {
    seq(n, _ => ' ')
  }

  predicate Distinct(names: seq<string>) {
    forall i, j :: 0 <= i < j < |names| ==> names[i] != names[j]
  }

  /** No proper prefix of `sep` is also a suffix of it, so two occurrences never overlap. */
  ghost predicate BorderFree(sep: string)
  {
    sep != "" && forall k :: 0 < k < |sep| ==> sep[..k] != sep[|sep| - k..]
  }

  /** Go's `strings.TrimLeft(s, string(c))`. */
  function TrimLeft(s: string, c: char): string
  {
    if s != "" && s[0] == c then TrimLeft(s[1..], c) else s
  }

  /** Go's `strings.TrimRight(s, cutset)`. */
  function TrimRight(s: string, cutset: set<char>): string
  {
    if s != "" && s[|s| - 1] in cutset then TrimRight(s[..|s| - 1], cutset) else s
  }

  /** Go's `strings.TrimPrefix`. */
  function TrimPrefix(s: string, prefix: string): string
  {
    if prefix <= s then s[|prefix|..] else s
  }

  const DIGITS: string := "0123456789"

  /** The decimal digits of `n`, as `%d` and `strconv.Itoa` print it. */
  function Decimal(n: nat): (d: string)
    ensures d != ""
    ensures forall i :: 0 <= i < |d| ==> d[i] in DIGITS
  {
    if n < 10 then [DIGITS[n]] else Decimal(n / 10) + [DIGITS[n % 10]]
  }

  lemma {:induction false} DecimalInjective(m: nat, n: nat)
    requires Decimal(m) == Decimal(n)
    ensures m == n
    decreases m + n
  {
    var dm, dn := Decimal(m), Decimal(n);
    assert DIGITS[m % 10] == dm[|dm| - 1] && DIGITS[n % 10] == dn[|dn| - 1];
    if m >= 10 && n >= 10 {
      assert dm[..|dm| - 1] == Decimal(m / 10) && dn[..|dn| - 1] == Decimal(n / 10);
      DecimalInjective(m / 10, n / 10);
    }
  }

  lemma {:induction false} DecimalAvoids(n: nat, c: char)
    requires c !in DIGITS
    ensures c !in Decimal(n)
  {
  }

  // ----- Contains -----

  lemma {:induction false} ContainsExtend(pre: string, s: string, post: string, sub: string)
    requires Contains(s, sub)
    ensures Contains(pre + s + post, sub)
    decreases |pre| + |s|
  {
    if pre != "" {
      ContainsExtend(pre[1..], s, post, sub);
      assert (pre + s + post)[1..] == pre[1..] + s + post;
    } else {
      assert pre + s + post == s + post;
      if !(sub <= s) {
        ContainsExtend("", s[1..], post, sub);
        assert (s + post)[1..] == "" + s[1..] + post;
      }
    }
  }

  lemma {:induction false} ContainsChar(s: string, c: char)
    ensures Contains(s, [c]) <==> c in s
  {
    if s != "" {
      assert s == [s[0]] + s[1..];
      ContainsChar(s[1..], c);
    }
  }

  lemma {:induction false} ContainsNeedsAll(s: string, sub: string, c: char)
    requires c in sub && c !in s
    ensures !Contains(s, sub)
  {
    if s != "" {
      ContainsNeedsAll(s[1..], sub, c);
    }
  }

  // ----- Split and Join -----

  /** No part of a split text holds the separator. */
  lemma {:induction false} SplitPartsClean(s: string, sep: string)
    requires sep != ""
    ensures forall p :: p in Split(s, sep) ==> !Contains(p, sep)
    decreases |s|
  {
    if |s| < |sep| {
      ShortNeverContains(s, sep);
    } else if sep <= s {
      SplitPartsClean(s[|sep|..], sep);
      ShortNeverContains("", sep);
    } else {
      SplitPartsClean(s[1..], sep);
      var rest := Split(s[1..], sep);
      SplitHeadPrefix(s[1..], sep);
      assert s == [s[0]] + s[1..];
      var head := [s[0]] + rest[0];
      assert head <= s;
      assert !Contains(head, sep) by {
        assert head[1..] == rest[0];
        assert rest[0] in rest;
      }
    }
  }

  lemma {:induction false} SplitHeadPrefix(s: string, sep: string)
    requires sep != ""
    ensures Split(s, sep)[0] <= s
    decreases |s|
  {
    if |s| >= |sep| && !(sep <= s) {
      SplitHeadPrefix(s[1..], sep);
    }
  }

  lemma {:induction false} ShortNeverContains(s: string, sep: string)
    requires |s| < |sep|
    ensures !Contains(s, sep)
  {
    if s != "" { ShortNeverContains(s[1..], sep); }
  }

  /** A character of a part is a character of the text. */
  lemma {:induction false} SplitPartsFrom(s: string, sep: string, c: char)
    requires sep != "" && c !in s
    ensures forall p :: p in Split(s, sep) ==> c !in p
    decreases |s|
  {
    if |s| < |sep| {
    } else if sep <= s {
      SplitPartsFrom(s[|sep|..], sep, c);
    } else {
      SplitPartsFrom(s[1..], sep, c);
      var rest := Split(s[1..], sep);
      assert rest[0] in rest;
    }
  }

  lemma ReplaceHit(pat: string, rest: string, repl: string)
    requires pat != ""
    ensures ReplaceAll(pat + rest, pat, repl) == repl + ReplaceAll(rest, pat, repl)
  {
    assert (pat + rest)[|pat|..] == rest;
  }

  lemma ReplaceMiss(s: string, pat: string, repl: string)
    requires pat != "" && s != "" && !(pat <= s)
    ensures ReplaceAll(s, pat, repl) == [s[0]] + ReplaceAll(s[1..], pat, repl)
  {
    if |s| < |pat| {
      assert s == [s[0]] + s[1..];
    }
  }

  lemma ReplaceEmpty(pat: string, repl: string)
    requires pat != ""
    ensures ReplaceAll("", pat, repl) == ""
  {
  }

  /** A text without the separator is its only part. */
  lemma {:induction false} SplitAbsent(s: string, sep: string)
    requires sep != "" && !Contains(s, sep)
    ensures Split(s, sep) == [s]
    decreases |s|
  {
    if |s| >= |sep| {
      SplitAbsent(s[1..], sep);
      assert s == [s[0]] + s[1..];
    }
  }

  /** A separator that cannot overlap itself does not start inside a text that another copy follows. */
  lemma {:induction false} NoStraddle(a: string, sep: string, b: string)
    requires BorderFree(sep) && a != ""
    ensures sep <= a + sep + b <==> sep <= a
  {
    var s := a + sep + b;
    if |a| < |sep| {
      var k := |sep| - |a|;
      var here, want := s[|a|..|sep|], sep[|a|..];
      assert here == sep[..k] != want;
      var i :| 0 <= i < k && here[i] != want[i];
      assert here[i] == s[|a| + i];
    } else {
      assert s[..|sep|] == a[..|sep|];
    }
  }

  /** Peeling one character off a text that does not start with the separator. */
  lemma {:induction false} SplitStep(s: string, sep: string)
    requires sep != "" && s != "" && !(sep <= s)
    ensures var rest := Split(s[1..], sep); Split(s, sep) == [[s[0]] + rest[0]] + rest[1..]
  {
    if |s| < |sep| { assert s == [s[0]] + s[1..]; }
  }

  lemma SplitHit(sep: string, rest: string)
    requires sep != ""
    ensures Split(sep + rest, sep) == [""] + Split(rest, sep)
  {
    assert (sep + rest)[|sep|..] == rest;
  }

  lemma SplitEmpty(sep: string)
    requires sep != ""
    ensures Split("", sep) == [""]
  {
  }

  /** Splitting distributes over a separator that cannot overlap itself. */
  lemma {:induction false} SplitAt(a: string, sep: string, b: string)
    requires BorderFree(sep)
    ensures Split(a + sep + b, sep) == Split(a, sep) + Split(b, sep)
    decreases |a|
  {
    hide Split, BorderFree;
    SepNonempty(sep);
    var s := a + sep + b;
    if a == "" {
      SplitHit(sep, b);
      SplitEmpty(sep);
      assert s == sep + b;
    } else if sep <= a {
      var more := a[|sep|..];
      SplitAt(more, sep, b);
      assert a == sep + more && s == sep + (more + sep + b);
      SplitHit(sep, more);
      SplitHit(sep, more + sep + b);
      assert [""] + (Split(more, sep) + Split(b, sep)) == [""] + Split(more, sep) + Split(b, sep);
    } else {
      SplitAt(a[1..], sep, b);
      NoStraddle(a, sep, b);
      SplitStep(s, sep);
      SplitStep(a, sep);
      assert s[1..] == a[1..] + sep + b;
      var rest := Split(a[1..], sep);
      assert (rest + Split(b, sep))[1..] == rest[1..] + Split(b, sep);
    }
  }

  lemma SepNonempty(sep: string)
    requires BorderFree(sep)
    ensures sep != ""
  {
  }

  /** Joining clean parts and splitting again gives the parts back. */
  lemma {:induction false} SplitJoin(parts: seq<string>, sep: string)
    requires BorderFree(sep) && |parts| >= 1
    requires forall p :: p in parts ==> !Contains(p, sep)
    ensures Split(Join(parts, sep), sep) == parts
  {
    SplitAbsent(parts[0], sep);
    if |parts| > 1 {
      SplitAt(parts[0], sep, Join(parts[1..], sep));
      SplitJoin(parts[1..], sep);
      assert parts == [parts[0]] + parts[1..];
    } else {
      assert parts == [parts[0]];
    }
  }

  lemma {:induction false} JoinAppend(parts: seq<string>, last: string, sep: string)
    requires |parts| >= 1
    ensures Join(parts + [last], sep) == Join(parts, sep) + sep + last
  {
    if |parts| == 1 {
      assert (parts + [last])[1..] == [last];
    } else {
      JoinAppend(parts[1..], last, sep);
      assert (parts + [last])[1..] == parts[1..] + [last];
    }
  }

  lemma {:induction false} TrimRightDigits(s: string, cutset: set<char>, tail: string)
    requires forall c :: c in tail ==> c in cutset
    requires s != "" && s[|s| - 1] !in cutset
    ensures TrimRight(s + tail, cutset) == s
  {
    if tail == "" {
      assert s + tail == s;
    } else {
      var t := s + tail;
      assert t[|t| - 1] == tail[|tail| - 1] && tail[|tail| - 1] in tail;
      assert t[..|t| - 1] == s + tail[..|tail| - 1];
      TrimRightDigits(s, cutset, tail[..|tail| - 1]);
    }
  }
}
