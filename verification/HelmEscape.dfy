/** `escape` of the rule generator: four chained replacements that protect the braces of Prometheus
    templates from Helm, and the part of Helm's template language that reads them back. */
module HelmEscape {
  import opened Options
  import opened Text

  const OPEN: string := "{{"
  const CLOSE: string := "}}"
  const OPEN_HALF: string := "{{`{{"
  const CLOSE_HALF: string := "}}`}}"
  const OPEN_FULL: string := "{{`{{`}}"
  const CLOSE_FULL: string := "{{`}}`}}"

  function Escape(s: string): string {
    ReplaceAll(ReplaceAll(ReplaceAll(ReplaceAll(s, OPEN, OPEN_HALF), CLOSE, CLOSE_HALF), OPEN_HALF, OPEN_FULL),
               CLOSE_HALF, CLOSE_FULL)
  }

  // ----- What Helm makes of a text -----

  /** The index of the first backquote, or the length of the text. */
  function FirstQuote(s: string): (i: nat)
    ensures i <= |s|
  {
    if s == "" || s[0] == '`' then 0 else 1 + FirstQuote(s[1..])
  }

  /** Helm's rendering of literal text and of actions that hold one raw string. An action starts at the
      leftmost `{{`. One that does not go on as a raw string followed by `}}` gives None: Helm's lexer
      stops with an error at a brace in that place, and no escaped text holds any other character there. */
  function Render(t: string): Option<string>
    decreases |t|
  {
    if t == "" then Some("")
    else if OPEN <= t then
      if |t| >= 3 && t[2] == '`' then
        var raw := t[3..];
        var q := FirstQuote(raw);
        if q + 3 <= |raw| && raw[q + 1..q + 3] == CLOSE then
          match Render(raw[q + 3..])
          case Some(out) => Some(raw[..q] + out)
          case None => None
        else None
      else None
    else
      match Render(t[1..])
      case Some(out) => Some([t[0]] + out)
      case None => None
  }

  // ----- Brace tokens -----

  datatype Token = Open | Close | Plain(c: char)

  /** Pair the braces off from the left. */
  function Tokens(s: string): seq<Token>
    decreases |s|
  {
    if s == "" then []
    else if OPEN <= s then [Open] + Tokens(s[2..])
    else if CLOSE <= s then [Close] + Tokens(s[2..])
    else [Plain(s[0])] + Tokens(s[1..])
  }

  /** The text in which every pair is written as given. */
  function Emit(ts: seq<Token>, open: string, close: string): string
  {
    if ts == [] then ""
    else
      (match ts[0]
       case Open => open
       case Close => close
       case Plain(c) => [c]) + Emit(ts[1..], open, close)
  }

  /** A brace left over by the pairing is the last of its run. */
  predicate Paired(ts: seq<Token>)
  {
    ts == [] ||
    (Paired(ts[1..]) && !(ts[0] == Plain('{') && StartsWith(ts[1..], '{')) && !(ts[0] == Plain('}') && StartsWith(ts[1..], '}')))
  }

  predicate StartsWith(ts: seq<Token>, c: char)
  {
    ts != [] && (ts[0] == Plain(c) || (c == '{' && ts[0] == Open) || (c == '}' && ts[0] == Close))
  }

  /** No leftover `{` stands directly before a `}}` pair, and no `{{` pair is followed by a backquote and a
      `}}` pair, with or without a leftover `}` in between. */
  predicate Safe(ts: seq<Token>)
  {
    ts == [] || (Safe(ts[1..]) && !StrayBefore(ts) && !FusesClose(ts))
  }

  /** A leftover `{` in front of a `}}` pair, whose escape starts with a brace of its own. */
  predicate StrayBefore(ts: seq<Token>)
  {
    |ts| >= 2 && ts[0] == Plain('{') && ts[1] == Close
  }

  /** The places where the tail of an escaped `{{` and the head of an escaped `}}` look like an unescaped `}}`. */
  predicate FusesClose(ts: seq<Token>)
  {
    |ts| >= 3 && ts[0] == Open &&
    ((ts[1] == Plain('`') && ts[2] == Close) ||
     (|ts| >= 4 && ts[1] == Plain('}') && ts[2] == Plain('`') && ts[3] == Close))
  }

  /** The first token tells the first character of the text. */
  lemma TokensHead(s: string)
    ensures s == "" <==> Tokens(s) == []
    ensures StartsWith(Tokens(s), '{') ==> s != "" && s[0] == '{'
    ensures StartsWith(Tokens(s), '}') ==> s != "" && s[0] == '}'
  {
    PrefixPair(s, '{', '{');
    PrefixPair(s, '}', '}');
  }

  lemma {:induction false} TokensPaired(s: string)
    ensures Paired(Tokens(s))
    decreases |s|
  {
    PrefixPair(s, '{', '{');
    PrefixPair(s, '}', '}');
    if s == "" {
    } else if OPEN <= s || CLOSE <= s {
      TokensPaired(s[2..]);
      assert Tokens(s)[1..] == Tokens(s[2..]);
    } else {
      TokensPaired(s[1..]);
      TokensHead(s[1..]);
      assert Tokens(s)[1..] == Tokens(s[1..]);
    }
  }

  /** Writing the tokens plainly gives the text back. */
  lemma {:induction false} TokensFaithful(s: string)
    ensures Emit(Tokens(s), OPEN, CLOSE) == s
    decreases |s|
  {
    if s == "" {
    } else if OPEN <= s || CLOSE <= s {
      TokensFaithful(s[2..]);
      assert Tokens(s)[1..] == Tokens(s[2..]);
      assert s == s[..2] + s[2..];
    } else {
      TokensFaithful(s[1..]);
      assert Tokens(s)[1..] == Tokens(s[1..]);
      assert s == [s[0]] + s[1..];
    }
  }

  // ----- The first three replacements act token by token -----

  lemma {:induction false} EmitHead(ts: seq<Token>, open: string, close: string)
    requires OPEN <= open && CLOSE <= close
    ensures var e := Emit(ts, open, close);
      && (e != "" && e[0] == '{' ==> StartsWith(ts, '{'))
      && (e != "" && e[0] == '}' ==> StartsWith(ts, '}'))
  {
  }

  lemma PrefixPair(e: string, a: char, b: char)
    ensures [a, b] <= e <==> |e| >= 2 && e[0] == a && e[1] == b
  {
    if [a, b] <= e { assert e[0] == [a, b][0] && e[1] == [a, b][1]; }
  }

  /** A text that differs from the pattern at index `i` keeps its first character. */
  lemma {:induction false} SkipOne(c: char, rest: string, pat: string, repl: string, i: nat)
    requires i < |pat| && (|rest| < i || ([c] + rest)[i] != pat[i])
    ensures ReplaceAll([c] + rest, pat, repl) == [c] + ReplaceAll(rest, pat, repl)
  {
    assert ([c] + rest)[1..] == rest;
    if |[c] + rest| < |pat| {
    }
  }

  lemma {:induction false} PlainStep(ts: seq<Token>, open: string, close: string, pat: string, repl: string)
    requires ts != [] && ts[0].Plain? && Paired(ts)
    requires OPEN <= open && CLOSE <= close
    requires OPEN <= pat || CLOSE <= pat
    ensures ReplaceAll(Emit(ts, open, close), pat, repl) ==
            [ts[0].c] + ReplaceAll(Emit(ts[1..], open, close), pat, repl)
  {
    EmitHead(ts[1..], open, close);
    assert open[0] == OPEN[0] && close[0] == CLOSE[0];
    assert (pat[0] == OPEN[0] && pat[1] == OPEN[1]) || (pat[0] == CLOSE[0] && pat[1] == CLOSE[1]);
    SkipOne(ts[0].c, Emit(ts[1..], open, close), pat, repl, if ts[0].c == pat[0] then 1 else 0);
  }

  /** One token and the rest. */
  lemma EmitCons(ts: seq<Token>, open: string, close: string)
    ensures Emit(ts, open, close) ==
            if ts == [] then ""
            else (if ts[0] == Open then open else if ts[0] == Close then close else [ts[0].c]) + Emit(ts[1..], open, close)
  {
  }

  lemma PairedTail(ts: seq<Token>)
    requires Paired(ts) && ts != []
    ensures Paired(ts[1..])
  {
  }

  lemma {:induction false} FirstReplacement(ts: seq<Token>)
    requires Paired(ts)
    ensures ReplaceAll(Emit(ts, OPEN, CLOSE), OPEN, OPEN_HALF) == Emit(ts, OPEN_HALF, CLOSE)
  {
    hide ReplaceAll, Emit;
    EmitCons(ts, OPEN, CLOSE);
    EmitCons(ts, OPEN_HALF, CLOSE);
    ReplaceEmpty(OPEN, OPEN_HALF);
    if ts != [] {
      PairedTail(ts);
      FirstReplacement(ts[1..]);
      var rest := Emit(ts[1..], OPEN, CLOSE);
      match ts[0]
      case Open => ReplaceHit(OPEN, rest, OPEN_HALF);
      case Close =>
        SkipOne('}', rest, OPEN, OPEN_HALF, 0);
        SkipOne('}', "}" + rest, OPEN, OPEN_HALF, 0);
        assert CLOSE + rest == "}" + ("}" + rest);
      case Plain(c) => PlainStep(ts, OPEN, CLOSE, OPEN, OPEN_HALF);
    }
  }

  lemma {:induction false} SecondReplacement(ts: seq<Token>)
    requires Paired(ts)
    ensures ReplaceAll(Emit(ts, OPEN_HALF, CLOSE), CLOSE, CLOSE_HALF) == Emit(ts, OPEN_HALF, CLOSE_HALF)
  {
    hide ReplaceAll, Emit;
    EmitCons(ts, OPEN_HALF, CLOSE);
    EmitCons(ts, OPEN_HALF, CLOSE_HALF);
    ReplaceEmpty(CLOSE, CLOSE_HALF);
    if ts != [] {
      PairedTail(ts);
      SecondReplacement(ts[1..]);
      var rest := Emit(ts[1..], OPEN_HALF, CLOSE);
      match ts[0]
      case Open => SkipText(OPEN_HALF, rest, CLOSE, CLOSE_HALF);
      case Close => ReplaceHit(CLOSE, rest, CLOSE_HALF);
      case Plain(c) => PlainStep(ts, OPEN_HALF, CLOSE, CLOSE, CLOSE_HALF);
    }
  }

  /** A text without the first character of the pattern is copied. */
  lemma {:induction false} SkipText(text: string, rest: string, pat: string, repl: string)
    requires pat != "" && forall i :: 0 <= i < |text| ==> text[i] != pat[0]
    ensures ReplaceAll(text + rest, pat, repl) == text + ReplaceAll(rest, pat, repl)
  {
    hide ReplaceAll;
    if text == "" {
      assert text + rest == rest;
    } else {
      SkipOne(text[0], text[1..] + rest, pat, repl, 0);
      SkipText(text[1..], rest, pat, repl);
      assert text + rest == [text[0]] + (text[1..] + rest);
      assert text == [text[0]] + text[1..];
    }
  }

  lemma {:induction false} ThirdReplacement(ts: seq<Token>)
    requires Paired(ts)
    ensures ReplaceAll(Emit(ts, OPEN_HALF, CLOSE_HALF), OPEN_HALF, OPEN_FULL) == Emit(ts, OPEN_FULL, CLOSE_HALF)
  {
    hide ReplaceAll, Emit;
    EmitCons(ts, OPEN_HALF, CLOSE_HALF);
    EmitCons(ts, OPEN_FULL, CLOSE_HALF);
    ReplaceEmpty(OPEN_HALF, OPEN_FULL);
    if ts != [] {
      PairedTail(ts);
      ThirdReplacement(ts[1..]);
      var rest := Emit(ts[1..], OPEN_HALF, CLOSE_HALF);
      match ts[0]
      case Open => ReplaceHit(OPEN_HALF, rest, OPEN_FULL);
      case Close => SkipText(CLOSE_HALF, rest, OPEN_HALF, OPEN_FULL);
      case Plain(c) => PlainStep(ts, OPEN_HALF, CLOSE_HALF, OPEN_HALF, OPEN_FULL);
    }
  }

  /** Everything but the last replacement is a token-wise map, whatever the text. */
  lemma ThreeReplacements(s: string)
    ensures Escape(s) == ReplaceAll(Emit(Tokens(s), OPEN_FULL, CLOSE_HALF), CLOSE_HALF, CLOSE_FULL)
  {
    TokensPaired(s);
    TokensFaithful(s);
    FirstReplacement(Tokens(s));
    SecondReplacement(Tokens(s));
    ThirdReplacement(Tokens(s));
  }

  // ----- The fourth replacement and the rendering -----

  /** What the fourth replacement and Helm make of a token list. */
  function Last(ts: seq<Token>): string {
    ReplaceAll(Emit(ts, OPEN_FULL, CLOSE_HALF), CLOSE_HALF, CLOSE_FULL)
  }

  lemma {:induction false} LastClose(rest: seq<Token>)
    ensures Last([Close] + rest) == CLOSE_FULL + Last(rest)
  {
    var ts := [Close] + rest;
    assert ts[1..] == rest;
    ReplaceHit(CLOSE_HALF, Emit(rest, OPEN_FULL, CLOSE_HALF), CLOSE_FULL);
  }

  lemma {:induction false} LastPlain(c: char, rest: seq<Token>)
    requires Paired([Plain(c)] + rest)
    ensures Last([Plain(c)] + rest) == [c] + Last(rest)
  {
    var ts := [Plain(c)] + rest;
    assert ts[1..] == rest;
    PlainStep(ts, OPEN_FULL, CLOSE_HALF, CLOSE_HALF, CLOSE_FULL);
  }

  /** The fourth replacement passes over the first part of an escaped `{{`. */
  lemma {:induction false} LastAfterOpen(rest: seq<Token>)
    ensures Last([Open] + rest) == "{{`{{`" + ReplaceAll(CLOSE + Emit(rest, OPEN_FULL, CLOSE_HALF), CLOSE_HALF, CLOSE_FULL)
  {
    hide ReplaceAll, Emit;
    var ts := [Open] + rest;
    assert ts[1..] == rest;
    EmitCons(ts, OPEN_FULL, CLOSE_HALF);
    var e := Emit(rest, OPEN_FULL, CLOSE_HALF);
    SkipText("{{`{{`", CLOSE + e, CLOSE_HALF, CLOSE_FULL);
    assert OPEN_FULL + e == "{{`{{`" + (CLOSE + e);
  }

  /** An escaped `{{` survives the fourth replacement exactly when it does not fuse with what follows. */
  lemma {:induction false} LastOpen(rest: seq<Token>)
    requires Paired([Open] + rest) && !FusesClose([Open] + rest)
    ensures Last([Open] + rest) == OPEN_FULL + Last(rest)
  {
    hide ReplaceAll, Emit, Paired, FusesClose;
    var e := Emit(rest, OPEN_FULL, CLOSE_HALF);
    LastAfterOpen(rest);
    EmitTail(rest);
    assert CLOSE + e == "}" + ("}" + e);
    SkipBoth(e);
    assert "{{`{{`" + ("}" + ("}" + Last(rest))) == OPEN_FULL + Last(rest);
  }

  lemma {:induction false} SkipBoth(e: string)
    requires !("`}}" <= e) && !("}`}}" <= e)
    ensures ReplaceAll("}" + ("}" + e), CLOSE_HALF, CLOSE_FULL) == "}" + ("}" + ReplaceAll(e, CLOSE_HALF, CLOSE_FULL))
  {
    var i := Mismatch("`}}", e);
    SkipOne('}', "}" + e, CLOSE_HALF, CLOSE_FULL, i + 2);
    var j := Mismatch("}`}}", e);
    SkipOne('}', e, CLOSE_HALF, CLOSE_FULL, j + 1);
  }

  lemma {:induction false} Mismatch(pat: string, s: string) returns (i: nat)
    requires !(pat <= s)
    ensures i < |pat| && (i >= |s| || s[i] != pat[i])
  {
    if |s| < |pat| {
      i := |s|;
    } else {
      var head := s[..|pat|];
      assert head != pat;
      i :| 0 <= i < |pat| && head[i] != pat[i];
    }
  }

  lemma {:induction false} EmitTail(rest: seq<Token>)
    requires Paired([Open] + rest) && !FusesClose([Open] + rest)
    ensures var e := Emit(rest, OPEN_FULL, CLOSE_HALF);
      !("`}}" <= e) && !("}`}}" <= e)
  {
    hide Emit;
    var ts := [Open] + rest;
    assert ts[1..] == rest;
    assert |rest| >= 2 ==> ts[1] == rest[0] && ts[2] == rest[1];
    assert |rest| >= 3 ==> ts[3] == rest[2];
    var e := Emit(rest, OPEN_FULL, CLOSE_HALF);
    if "`}}" <= e { AfterQuote(rest); }
    if "}`}}" <= e { AfterLoneBrace(rest); }
  }

  /** A backquote and the head of an escaped pair. */
  lemma {:induction false} AfterQuote(rest: seq<Token>)
    requires Paired(rest) && "`}}" <= Emit(rest, OPEN_FULL, CLOSE_HALF)
    ensures |rest| >= 2 && rest[0] == Plain('`') && rest[1] == Close
  {
    hide Emit;
    var e := Emit(rest, OPEN_FULL, CLOSE_HALF);
    var want := "`}}";
    assert e[0] == want[0] && e[1] == want[1] && e[2] == want[2];
    EmitCons(rest, OPEN_FULL, CLOSE_HALF);
    assert OPEN_FULL[0] == '{' && CLOSE_HALF[0] == '}';
    var r1 := rest[1..];
    var e1 := Emit(r1, OPEN_FULL, CLOSE_HALF);
    assert rest[0].Plain? && e == [rest[0].c] + e1;
    PairedTail(rest);
    PrefixPair(e1, '}', '}');
    EmitClose(r1);
  }

  /** A leftover `}` and the head of an escaped pair. */
  lemma {:induction false} AfterLoneBrace(rest: seq<Token>)
    requires Paired(rest) && "}`}}" <= Emit(rest, OPEN_FULL, CLOSE_HALF)
    ensures |rest| >= 3 && rest[0] == Plain('}') && rest[1] == Plain('`') && rest[2] == Close
  {
    hide Emit;
    var e := Emit(rest, OPEN_FULL, CLOSE_HALF);
    var want := "}`}}";
    assert e[0] == want[0] && e[1] == want[1] && e[2] == want[2] && e[3] == want[3];
    EmitCons(rest, OPEN_FULL, CLOSE_HALF);
    assert OPEN_FULL[0] == '{' && CLOSE_HALF[1] == '}';
    var r1 := rest[1..];
    var e1 := Emit(r1, OPEN_FULL, CLOSE_HALF);
    assert rest[0].Plain? && e == [rest[0].c] + e1;
    PairedTail(rest);
    var tail := "`}}";
    assert e1[..3] == tail;
    AfterQuote(r1);
  }

  /** The emitted text starts with `}}` only at a pair. */
  lemma {:induction false} EmitClose(ts: seq<Token>)
    requires Paired(ts)
    ensures CLOSE <= Emit(ts, OPEN_FULL, CLOSE_HALF) <==> ts != [] && ts[0] == Close
  {
    hide Emit;
    EmitCons(ts, OPEN_FULL, CLOSE_HALF);
    var e := Emit(ts, OPEN_FULL, CLOSE_HALF);
    PrefixPair(e, '}', '}');
    if ts != [] {
      assert OPEN_FULL[0] == '{' && CLOSE_HALF[0] == '}' && CLOSE_HALF[1] == '}';
      PairedTail(ts);
      EmitHead(ts[1..], OPEN_FULL, CLOSE_HALF);
    }
  }

  /** Where it fuses, the fourth replacement cuts the action of the `{{` in two. */
  lemma {:induction false} FusedOpenBreaks(rest: seq<Token>)
    requires FusesClose([Open] + rest)
    ensures Render(Last([Open] + rest)) == None
    ensures !(OPEN_FULL <= Last([Open] + rest))
  {
    hide ReplaceAll, Emit, Paired, Render, Last;
    var ts := [Open] + rest;
    assert |ts| >= 3 && ts[1] == rest[0] && ts[2] == rest[1] && (|ts| >= 4 ==> ts[3] == rest[2]);
    if rest[0] == Plain('`') {
      FusedAfter(rest, "", rest);
    } else {
      assert rest == [Plain('}')] + rest[1..];
      EmitCons(rest, OPEN_FULL, CLOSE_HALF);
      FusedAfter(rest, "}", rest[1..]);
    }
    var lone := if rest[0] == Plain('`') then "" else "}";
    assert ("{{`{{`" + (lone + CLOSE_FULL))[6 + |lone|] == '{';
  }

  lemma {:induction false} FusedAfter(rest: seq<Token>, lone: string, quoted: seq<Token>)
    requires lone in {"", "}"}
    requires |quoted| >= 2 && quoted[0] == Plain('`') && quoted[1] == Close
    requires Emit(rest, OPEN_FULL, CLOSE_HALF) == lone + Emit(quoted, OPEN_FULL, CLOSE_HALF)
    ensures Render(Last([Open] + rest)) == None
    ensures "{{`{{`" + (lone + CLOSE_FULL) <= Last([Open] + rest)
  {
    hide ReplaceAll, Emit, Render, Last;
    LastAfterOpen(rest);
    FusedTail(quoted);
    var tail := "`}}" + Emit(quoted[2..], OPEN_FULL, CLOSE_HALF);
    assert CLOSE + Emit(rest, OPEN_FULL, CLOSE_HALF) == lone + (CLOSE_HALF + tail);
    FusedText(lone, tail);
    FusedRender(lone, tail);
  }

  lemma {:induction false} FusedTail(rest: seq<Token>)
    requires |rest| >= 2 && rest[0] == Plain('`') && rest[1] == Close
    ensures Emit(rest, OPEN_FULL, CLOSE_HALF) == "`}}" + ("`}}" + Emit(rest[2..], OPEN_FULL, CLOSE_HALF))
  {
    var more := Emit(rest[2..], OPEN_FULL, CLOSE_HALF);
    assert rest[1..][1..] == rest[2..];
    assert Emit(rest[1..], OPEN_FULL, CLOSE_HALF) == CLOSE_HALF + more;
  }

  lemma {:induction false} FusedText(lone: string, tail: string)
    requires lone in {"", "}"}
    ensures ReplaceAll(lone + (CLOSE_HALF + tail), CLOSE_HALF, CLOSE_FULL)
         == (lone + CLOSE_FULL) + ReplaceAll(tail, CLOSE_HALF, CLOSE_FULL)
  {
    if lone == "}" {
      SkipOne('}', CLOSE_HALF + tail, CLOSE_HALF, CLOSE_FULL, 2);
    } else {
      assert lone + (CLOSE_HALF + tail) == CLOSE_HALF + tail;
    }
    ReplaceHit(CLOSE_HALF, tail, CLOSE_FULL);
  }

  lemma {:induction false} FusedRender(lone: string, tail: string)
    requires lone in {"", "}"}
    ensures Render("{{`{{`" + ReplaceAll(lone + (CLOSE_HALF + tail), CLOSE_HALF, CLOSE_FULL)) == None
  {
    hide ReplaceAll, Render;
    FusedText(lone, tail);
    var next := lone + CLOSE_FULL;
    assert next[1] == '{' && next[..2][1] == next[1];
    OpenNotClosed(next, ReplaceAll(tail, CLOSE_HALF, CLOSE_FULL));
  }

  /** A raw string that is not directly followed by `}}` is an error. */
  lemma {:induction false} OpenNotClosed(next: string, more: string)
    requires |next| >= 2 && next[..2] != CLOSE
    ensures Render("{{`{{`" + (next + more)) == None
  {
    var t := "{{`{{`" + (next + more);
    var raw := t[3..];
    assert raw == "{{`" + (next + more);
    QuoteAt("{{", "`" + (next + more));
    assert raw == "{{" + ("`" + (next + more));
    assert raw[3..5] == next[..2];
  }

  lemma {:induction false} QuoteAt(pre: string, post: string)
    requires '`' !in pre && post != "" && post[0] == '`'
    ensures FirstQuote(pre + post) == |pre|
  {
    if pre != "" {
      QuoteAt(pre[1..], post);
      assert (pre + post)[1..] == pre[1..] + post;
    } else {
      assert pre + post == post;
    }
  }

  /** A quoted pair renders to the pair. */
  lemma {:induction false} RenderQuoted(pair: string, rest: string)
    requires |pair| == 2 && '`' !in pair
    ensures Render("{{`" + pair + "`}}" + rest) ==
            match Render(rest) case Some(out) => Some(pair + out) case None => None
  {
    var t := "{{`" + pair + "`}}" + rest;
    var raw := t[3..];
    assert raw == pair + ("`}}" + rest);
    QuoteAt(pair, "`}}" + rest);
    assert raw[5..] == rest && raw[..2] == pair && raw[3..5] == CLOSE;
  }

  /** The text the fourth replacement gives starts with a brace only when the tokens do. */
  lemma {:induction false} LastHead(ts: seq<Token>)
    requires Paired(ts)
    ensures Last(ts) != "" && Last(ts)[0] == '{' ==> StartsWith(ts, '{') || ts[0] == Close
    ensures ts != [] && ts[0] == Close ==> OPEN <= Last(ts)
  {
    if ts != [] {
      assert ts == [ts[0]] + ts[1..];
      match ts[0]
      case Open =>
      case Close => LastClose(ts[1..]);
      case Plain(c) => LastPlain(c, ts[1..]);
    }
  }

  lemma {:induction false} RenderPlain(c: char, rest: seq<Token>)
    requires Paired([Plain(c)] + rest) && Render(Last(rest)) == if Safe(rest) then Some(Emit(rest, OPEN, CLOSE)) else None
    ensures Render([c] + Last(rest)) ==
            if Safe(rest) && !StrayBefore([Plain(c)] + rest) then Some([c] + Emit(rest, OPEN, CLOSE)) else None
  {
    var t := [c] + Last(rest);
    assert ([Plain(c)] + rest)[1..] == rest;
    assert t[1..] == Last(rest);
    LastHead(rest);
    PrefixPair(t, '{', '{');
    if StrayBefore([Plain(c)] + rest) {
      LastCloseHead(rest);
    }
  }

  lemma {:induction false} LastCloseHead(rest: seq<Token>)
    requires rest != [] && rest[0] == Close
    ensures Render("{" + Last(rest)) == None
  {
    assert rest == [Close] + rest[1..];
    LastClose(rest[1..]);
    var t := "{" + Last(rest);
    assert t[..3] == "{{{";
  }

  lemma {:induction false} RenderLast(ts: seq<Token>)
    requires Paired(ts)
    ensures Render(Last(ts)) == if Safe(ts) then Some(Emit(ts, OPEN, CLOSE)) else None
  {
    if ts != [] {
      var rest := ts[1..];
      assert ts == [ts[0]] + rest;
      RenderLast(rest);
      match ts[0]
      case Open =>
        if FusesClose(ts) {
          FusedOpenBreaks(rest);
        } else {
          LastOpen(rest);
          RenderQuoted(OPEN, Last(rest));
          assert OPEN_FULL == "{{`" + OPEN + "`}}";
        }
      case Close =>
        LastClose(rest);
        RenderQuoted(CLOSE, Last(rest));
        assert CLOSE_FULL == "{{`" + CLOSE + "`}}";
      case Plain(c) =>
        LastPlain(c, rest);
        RenderPlain(c, rest);
    }
  }

  /** Helm gives back exactly the text that was escaped, if and only if the text is safe; on every other
      text the generated template does not render at all. */
  lemma EscapeRoundTrip(s: string)
    ensures Render(Escape(s)) == if Safe(Tokens(s)) then Some(s) else None
  {
    ThreeReplacements(s);
    TokensPaired(s);
    TokensFaithful(s);
    RenderLast(Tokens(s));
  }

  predicate NeverFuses(ts: seq<Token>) {
    forall k :: 0 <= k < |ts| ==> !FusesClose(ts[k..])
  }

  lemma NeverFusesStep(ts: seq<Token>)
    requires ts != []
    ensures NeverFuses(ts) <==> NeverFuses(ts[1..]) && !FusesClose(ts)
  {
    var rest := ts[1..];
    assert ts[0..] == ts;
    assert forall k :: 0 <= k < |rest| ==> rest[k..] == ts[k + 1..];
    if NeverFuses(rest) && !FusesClose(ts) {
      forall k | 0 <= k < |ts|
        ensures !FusesClose(ts[k..])
      {
        assert k > 0 ==> ts[k..] == rest[k - 1..];
      }
    }
  }

  lemma {:induction false} TokenMapExactly(ts: seq<Token>)
    requires Paired(ts)
    ensures Last(ts) == Emit(ts, OPEN_FULL, CLOSE_FULL) <==> NeverFuses(ts)
  {
    hide ReplaceAll, Last, NeverFuses, FusesClose;
    if ts == [] {
      NothingFuses();
    } else {
      var rest := ts[1..];
      assert ts == [ts[0]] + rest;
      TokenMapExactly(rest);
      NeverFusesStep(ts);
      PlainHeads(ts);
      match ts[0] {
        case Open => if FusesClose(ts) { FusedOpenBreaks(rest); } else { LastOpen(rest); }
        case Close => LastClose(rest);
        case Plain(c) => LastPlain(c, rest);
      }
      var head, mapped := Emit([ts[0]], OPEN_FULL, CLOSE_FULL), Emit(rest, OPEN_FULL, CLOSE_FULL);
      assert ts[0] != Open || !FusesClose(ts) ==> Last(ts) == head + Last(rest);
      SameTail(head, Last(rest), mapped);
    }
  }

  lemma NothingFuses()
    ensures Last([]) == "" && NeverFuses([])
  {
  }

  lemma PlainHeads(ts: seq<Token>)
    requires ts != []
    ensures FusesClose(ts) ==> ts[0] == Open
    ensures Emit(ts, OPEN_FULL, CLOSE_FULL) == Emit([ts[0]], OPEN_FULL, CLOSE_FULL) + Emit(ts[1..], OPEN_FULL, CLOSE_FULL)
  {
    assert [ts[0]][1..] == [];
  }

  lemma SameTail(head: string, a: string, b: string)
    ensures head + a == head + b <==> a == b
  {
    assert (head + a)[|head|..] == a && (head + b)[|head|..] == b;
  }

  /** The four replacements are one token-wise map exactly on the texts whose `{{` do not fuse with a later `}}`. */
  lemma EscapeIsTokenMap(s: string)
    ensures Escape(s) == Emit(Tokens(s), OPEN_FULL, CLOSE_FULL) <==> NeverFuses(Tokens(s))
  {
    hide ReplaceAll, Emit, NeverFuses;
    ThreeReplacements(s);
    TokensPaired(s);
    TokenMapExactly(Tokens(s));
  }

  lemma {:induction false} NoQuoteNoFuse(s: string)
    requires '`' !in s
    ensures Plain('`') !in Tokens(s)
    decreases |s|
  {
    if s == "" {
    } else if OPEN <= s || CLOSE <= s {
      NoQuoteNoFuse(s[2..]);
    } else {
      NoQuoteNoFuse(s[1..]);
    }
  }

  /** Without a backquote in the text, `escape` is the token-wise map. */
  lemma EscapeWithoutQuotes(s: string)
    requires '`' !in s
    ensures Escape(s) == Emit(Tokens(s), OPEN_FULL, CLOSE_FULL)
  {
    NoQuoteNoFuse(s);
    var ts := Tokens(s);
    forall k | 0 <= k < |ts| ensures !FusesClose(ts[k..]) {
      assert forall t :: t in ts[k..] ==> t in ts;
    }
    EscapeIsTokenMap(s);
  }
}
