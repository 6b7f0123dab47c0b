/** `add_custom_labels`: a template condition is spliced into every alert block of a rules text, at positions
    found in the original text and corrected for the splices already made. */
module RuleSplice {
  import opened Text

  // ----- Where the alert blocks begin -----

  /** The fixed part of the pattern for an alert line. */
  function Marker(indent: nat): (marker: string)
    ensures |marker| == indent + |"- alert:"|
  {
    Spaces(indent) + "- alert:"
  }

  /** Where `.*` stops: at the next line break or at the end of the text. */
  function LineEnd(s: string, i: nat): (e: nat)
    requires i <= |s|
    ensures i <= e <= |s|
    ensures forall j :: i <= j < e ==> s[j] != '\n'
    ensures e < |s| ==> s[e] == '\n'
    decreases |s| - i
  {
    if i == |s| || s[i] == '\n' then i else LineEnd(s, i + 1)
  }

  /** The starts of the leftmost non-overlapping matches of the marker and the rest of its line. */
  function AlertStarts(s: string, marker: string, from: nat): (starts: seq<nat>)
    requires marker != "" && from <= |s|
    ensures forall k :: 0 <= k < |starts| ==> from <= starts[k] < |s| && OccursAt(s, marker, starts[k])
    ensures forall k :: 0 <= k < |starts| - 1 ==> starts[k] + |marker| <= starts[k + 1]
    decreases |s| - from
  {
    if from == |s| then []
    else if OccursAt(s, marker, from) then [from] + AlertStarts(s, marker, LineEnd(s, from + |marker|))
    else AlertStarts(s, marker, from + 1)
  }

  /** Every alert line that starts with the marker is found: no earlier match reaches over a line break. */
  lemma {:induction false} AlertLinesFound(s: string, marker: string, from: nat, i: nat)
    requires marker != "" && '\n' !in marker && from <= i
    requires OccursAt(s, marker, i) && (i == from || s[i - 1] == '\n')
    ensures i in AlertStarts(s, marker, from)
    decreases |s| - from
  {
    if OccursAt(s, marker, from) {
      if from < i {
        assert forall j :: from <= j < from + |marker| ==> s[j] == marker[j - from];
        AlertLinesFound(s, marker, LineEnd(s, from + |marker|), i);
      }
    } else {
      AlertLinesFound(s, marker, from + 1, i);
    }
  }

  // ----- Splicing -----

  const VALUE: string := ".Values.defaultRules" + ".additionalRuleLabels"
  const IF_LINE: string := "{{- if " + VALUE + " }}"
  const LABELS_LINE: string := "{{ toYaml " + VALUE + " | indent 8 }}"
  const END_LINE: string := "{{- end }}"

  const CONDITION: string := IF_LINE + "\n" + LABELS_LINE + "\n" + END_LINE

  predicate Ascending(cuts: seq<nat>, length: nat) {
    && (forall k :: 0 <= k < |cuts| ==> cuts[k] <= length)
    && (forall j, k :: 0 <= j < k < |cuts| ==> cuts[j] <= cuts[k])
  }

  /** The text with a splice at each of the given places of the original text. */
  function Woven(s: string, cuts: seq<nat>, splice: string): (woven: string)
    requires Ascending(cuts, |s|)
    ensures |woven| == |s| + |splice| * |cuts|
    decreases |cuts|
  {
    if cuts == [] then s
    else
      var last := |cuts| - 1;
      Woven(s[..cuts[last]], cuts[..last], splice) + splice + s[cuts[last]..]
  }

  /** An alert block reaches to the next alert line or to the end of the text. */
  function BlockEnd(length: nat, starts: seq<nat>, k: nat): (e: nat)
    requires forall i :: 0 <= i < |starts| ==> starts[i] < length
    requires forall i :: 0 <= i < |starts| - 1 ==> starts[i] < starts[i + 1]
    requires k < |starts|
    ensures starts[k] < e <= length
  {
    if k + 1 < |starts| then starts[k + 1] else length
  }

  /** For each alert block the place just before its last character. */
  function BlockCuts(length: nat, starts: seq<nat>): (cuts: seq<nat>)
    requires forall k :: 0 <= k < |starts| ==> starts[k] < length
    requires forall k :: 0 <= k < |starts| - 1 ==> starts[k] < starts[k + 1]
    ensures |cuts| == |starts|
    ensures forall k :: 0 <= k < |starts| ==> starts[k] <= cuts[k] == BlockEnd(length, starts, k) - 1
  {
    seq(|starts|, k requires 0 <= k < |starts| => BlockEnd(length, starts, k) - 1)
  }

  lemma {:induction false} StepwiseAscends(cuts: seq<nat>, length: nat)
    requires forall k :: 0 <= k < |cuts| - 1 ==> cuts[k] <= cuts[k + 1]
    requires cuts != [] ==> cuts[|cuts| - 1] <= length
    ensures Ascending(cuts, length)
  {
    if |cuts| > 1 {
      var last := |cuts| - 1;
      StepwiseAscends(cuts[..last], cuts[last]);
      assert forall k :: 0 <= k < last ==> cuts[..last][k] == cuts[k];
    }
  }

  /** Behind the last splice the text is the original one. */
  lemma WovenTail(s: string, cuts: seq<nat>, splice: string, x: nat)
    requires Ascending(cuts, x) && x <= |s|
    ensures Ascending(cuts, |s|)
    ensures Woven(s, cuts, splice) == Woven(s[..x], cuts, splice) + s[x..]
  {
    if cuts != [] {
      var last := |cuts| - 1;
      var c := cuts[last];
      assert s[..x][..c] == s[..c];
      var head := Woven(s[..c], cuts[..last], splice) + splice;
      assert s[c..] == s[..x][c..] + s[x..];
      assert head + (s[..x][c..] + s[x..]) == (head + s[..x][c..]) + s[x..];
    } else {
      assert s == s[..x] + s[x..];
    }
  }

  lemma WovenNone(s: string, splice: string)
    ensures Ascending([], |s|) && Woven(s, [], splice) == s
  {
  }

  /** One more splice behind all others is an insertion at the corrected index. */
  lemma WovenStep(s: string, cuts: seq<nat>, c: nat, splice: string)
    requires Ascending(cuts, c) && c <= |s|
    ensures Ascending(cuts, |s|) && Ascending(cuts + [c], |s|)
    ensures var t := Woven(s, cuts, splice);
            var index := c + |splice| * |cuts|;
            index <= |t| && Woven(s, cuts + [c], splice) == t[..index] + splice + t[index..]
  {
    var more := cuts + [c];
    assert more[..|cuts|] == cuts;
    WovenTail(s, cuts, splice, c);
    var t, head := Woven(s, cuts, splice), Woven(s[..c], cuts, splice);
    assert t == head + s[c..];
    assert t[..|head|] == head && t[|head|..] == s[c..];
  }

  lemma WovenAt(s: string, cuts: seq<nat>, c: nat, splice: string, index: nat)
    requires Ascending(cuts, c) && c <= |s| && index == c + |splice| * |cuts|
    ensures Ascending(cuts, |s|) && Ascending(cuts + [c], |s|)
    ensures var t := Woven(s, cuts, splice);
            && index <= |t| == |s| + (index - c)
            && Woven(s, cuts + [c], splice) == t[..index] + splice + t[index..]
  {
    hide Woven, Ascending;
    WovenStep(s, cuts, c, splice);
  }

  /** The cuts before a block lie before its own cut. */
  lemma {:induction false} CutsBelow(length: nat, starts: seq<nat>, n: nat)
    requires forall k :: 0 <= k < |starts| ==> starts[k] < length
    requires forall k :: 0 <= k < |starts| - 1 ==> starts[k] < starts[k + 1]
    requires n < |starts|
    ensures var cuts := BlockCuts(length, starts);
            Ascending(cuts[..n], cuts[n]) && cuts[n] <= length && cuts[..n] + [cuts[n]] == cuts[..n + 1]
  {
    var cuts := BlockCuts(length, starts);
    forall k | 0 <= k < |starts| - 1
      ensures cuts[k] <= cuts[k + 1]
    {
      assert cuts[k] < BlockEnd(length, starts, k) <= starts[k + 1] <= cuts[k + 1];
    }
    StepwiseAscends(cuts[..n], cuts[n]);
  }

  function Insert(text: string, index: nat, condition: string): (longer: string)
    requires index <= |text|
    ensures longer == text[..index] + ("\n" + condition) + text[index..]
  {
    text[..index] + "\n" + condition + text[index..]
  }

  /** The insertion for the n-th block; the last one lands just before the end of the text. */
  lemma InsertStep(rules: string, starts: seq<nat>, n: nat, condition: string)
    requires forall k :: 0 <= k < |starts| ==> starts[k] < |rules|
    requires forall k :: 0 <= k < |starts| - 1 ==> starts[k] < starts[k + 1]
    requires n < |starts|
    ensures var cuts := BlockCuts(|rules|, starts);
            && Ascending(cuts[..n], |rules|) && Ascending(cuts[..n + 1], |rules|)
            && var t := Woven(rules, cuts[..n], "\n" + condition);
               var index := BlockEnd(|rules|, starts, n) + (|condition| + 1) * n - 1;
               && 0 <= index <= |t|
               && (n + 1 == |starts| ==> index == |t| - 1)
               && Woven(rules, cuts[..n + 1], "\n" + condition) == Insert(t, index, condition)
  {
    hide Woven, Ascending, BlockCuts;
    var splice := "\n" + condition;
    var cuts := BlockCuts(|rules|, starts);
    CutsBelow(|rules|, starts, n);
    WovenAt(rules, cuts[..n], cuts[n], splice, cuts[n] + (|condition| + 1) * n);
  }

  lemma {:induction false} InsertBefore(rules: string, starts: seq<nat>, n: nat, condition: string, spliceLength: nat)
    requires forall k :: 0 <= k < |starts| ==> starts[k] < |rules|
    requires forall k :: 0 <= k < |starts| - 1 ==> starts[k] < starts[k + 1]
    requires n + 1 < |starts| && spliceLength == |condition| + 1
    ensures var cuts := BlockCuts(|rules|, starts);
            && Ascending(cuts[..n], |rules|) && Ascending(cuts[..n + 1], |rules|)
            && var t := Woven(rules, cuts[..n], "\n" + condition);
               var index := starts[n + 1] + spliceLength * n - 1;
               && 0 <= index <= |t| && Woven(rules, cuts[..n + 1], "\n" + condition) == Insert(t, index, condition)
  {
    hide Woven, Ascending, BlockCuts, Insert;
    InsertStep(rules, starts, n, condition);
  }

  lemma {:induction false} InsertLast(rules: string, starts: seq<nat>, n: nat, condition: string)
    requires forall k :: 0 <= k < |starts| ==> starts[k] < |rules|
    requires forall k :: 0 <= k < |starts| - 1 ==> starts[k] < starts[k + 1]
    requires n + 1 == |starts|
    ensures var cuts := BlockCuts(|rules|, starts);
            && Ascending(cuts[..n], |rules|) && Ascending(cuts, |rules|)
            && var t := Woven(rules, cuts[..n], "\n" + condition);
               |t| > 0 && Woven(rules, cuts, "\n" + condition) == Insert(t, |t| - 1, condition)
  {
    hide Woven, Ascending, BlockCuts, Insert;
    InsertStep(rules, starts, n, condition);
    var cuts := BlockCuts(|rules|, starts);
    assert cuts[..n + 1] == cuts;
  }

  /** `add_custom_labels`: exactly one condition per alert block, just before the last character of the block. */
  method AddCustomLabels(rules: string, indent: nat, condition: string) returns (labelled: string)
    ensures var starts := AlertStarts(rules, Marker(indent), 0);
            var cuts := BlockCuts(|rules|, starts);
            Ascending(cuts, |rules|) && labelled == Woven(rules, cuts, "\n" + condition)
  {
    hide AlertStarts, OccursAt, Woven, Ascending, BlockCuts, BlockEnd, Marker, Insert;
    ghost var splice := "\n" + condition;
    var spliceLength := |condition| + 1;
    var starts := AlertStarts(rules, Marker(indent), 0);
    ghost var cuts := BlockCuts(|rules|, starts);
    labelled := rules;
    WovenNone(rules, splice);
    assert cuts[..0] == [];
    var alert := -1;
    ghost var n := 0;
    var i := 0;
    while i < |starts|
      invariant 0 <= i <= |starts|
      invariant alert == i - 1
      invariant n == (if i == 0 then 0 else i - 1)
      invariant Ascending(cuts[..n], |rules|)
      invariant labelled == Woven(rules, cuts[..n], splice)
    {
      if alert >= 0 {
        var index := starts[i] + spliceLength * alert - 1;
        InsertBefore(rules, starts, n, condition, spliceLength);
        labelled := Insert(labelled, index, condition);
        n := n + 1;
      }
      alert := alert + 1;
      i := i + 1;
    }
    if alert >= 0 {
      var index := |labelled| - 1;
      InsertLast(rules, starts, n, condition);
      labelled := Insert(labelled, index, condition);
    } else {
      assert cuts[..n] == cuts;
    }
  }

  // ----- Where everything ends up -----

  /** The number of cuts at or before a place of the original text. */
  function CutsUpTo(cuts: seq<nat>, i: nat): (n: nat)
    ensures n <= |cuts|
  {
    if cuts == [] then 0 else CutsUpTo(cuts[..|cuts| - 1], i) + if cuts[|cuts| - 1] <= i then 1 else 0
  }

  lemma {:induction false} AllCutsUpTo(cuts: seq<nat>, length: nat, i: nat)
    requires Ascending(cuts, length) && cuts != [] && cuts[|cuts| - 1] <= i
    ensures CutsUpTo(cuts, i) == |cuts|
  {
    var last := |cuts| - 1;
    if last > 0 {
      AllCutsUpTo(cuts[..last], length, i);
    }
  }

  /** Every character of the original text is in the result, moved by the splices before it. */
  lemma {:induction false} CharacterMoves(s: string, cuts: seq<nat>, splice: string, i: nat)
    requires Ascending(cuts, |s|) && i < |s|
    ensures var at := i + |splice| * CutsUpTo(cuts, i);
            at < |Woven(s, cuts, splice)| && Woven(s, cuts, splice)[at] == s[i]
    decreases |cuts|
  {
    if cuts != [] {
      var last := |cuts| - 1;
      var c := cuts[last];
      if c <= i {
        AllCutsUpTo(cuts, |s|, i);
        var head := Woven(s[..c], cuts[..last], splice) + splice;
        assert |head| == c + |splice| * |cuts|;
        assert Woven(s, cuts, splice)[|head| + (i - c)] == s[c..][i - c];
      } else {
        CharacterMoves(s[..c], cuts[..last], splice, i);
      }
    }
  }

  /** The corrected index of the k-th insertion is where the k-th splice is found in the final text. */
  lemma {:induction false} SpliceAtCorrectedIndex(s: string, cuts: seq<nat>, splice: string, k: nat)
    requires Ascending(cuts, |s|) && k < |cuts|
    ensures var index := cuts[k] + |splice| * k;
            && index + |splice| <= |Woven(s, cuts, splice)|
            && Woven(s, cuts, splice)[index..index + |splice|] == splice
    decreases |cuts|
  {
    hide Woven, Ascending;
    var last := |cuts| - 1;
    WovenLast(s, cuts, splice);
    var head := Woven(s[..cuts[last]], cuts[..last], splice);
    var tail := s[cuts[last]..];
    if k < last {
      SpliceAtCorrectedIndex(s[..cuts[last]], cuts[..last], splice, k);
      SliceOfPrefix(head, splice, tail, cuts[k] + |splice| * k, |splice|);
    } else {
      SliceOfMiddle(head, splice, tail);
    }
  }

  lemma WovenLast(s: string, cuts: seq<nat>, splice: string)
    requires Ascending(cuts, |s|) && cuts != []
    ensures var last := |cuts| - 1;
            && cuts[last] <= |s| && Ascending(cuts[..last], |s[..cuts[last]]|)
            && var head := Woven(s[..cuts[last]], cuts[..last], splice);
               |head| == cuts[last] + |splice| * last && Woven(s, cuts, splice) == head + splice + s[cuts[last]..]
  {
  }

  lemma SliceOfPrefix(head: string, middle: string, tail: string, i: nat, n: nat)
    requires i + n <= |head|
    ensures (head + middle + tail)[i..i + n] == head[i..i + n]
  {
  }

  lemma SliceOfMiddle(head: string, middle: string, tail: string)
    ensures (head + middle + tail)[|head|..|head| + |middle|] == middle
  {
  }

  // ----- Taking the splices out again -----

  /** Replacing distributes over a pattern that cannot overlap itself. */
  lemma {:induction false} ReplaceAt(a: string, pat: string, b: string, repl: string)
    requires BorderFree(pat)
    ensures pat != ""
    ensures ReplaceAll(a + pat + b, pat, repl) == ReplaceAll(a, pat, repl) + repl + ReplaceAll(b, pat, repl)
    decreases |a|
  {
    hide ReplaceAll, BorderFree;
    SepNonempty(pat);
    var s := a + pat + b;
    if a == "" {
      assert s == pat + b;
      ReplaceHit(pat, b, repl);
      ReplaceEmpty(pat, repl);
    } else if pat <= a {
      var more := a[|pat|..];
      ReplaceAt(more, pat, b, repl);
      assert a == pat + more && s == pat + (more + pat + b);
      ReplaceHit(pat, more, repl);
      ReplaceHit(pat, more + pat + b, repl);
    } else {
      NoStraddle(a, pat, b);
      ReplaceAt(a[1..], pat, b, repl);
      assert s[1..] == a[1..] + pat + b;
      ReplaceMiss(s, pat, repl);
      ReplaceMiss(a, pat, repl);
    }
  }

  /** Removing a pattern keeps a text without it and shortens every other. */
  lemma {:induction false} RemoveShortens(s: string, pat: string)
    requires pat != ""
    ensures ReplaceAll(s, pat, "") == s <==> !Contains(s, pat)
    ensures |ReplaceAll(s, pat, "")| <= |s|
    ensures Contains(s, pat) ==> |ReplaceAll(s, pat, "")| < |s|
    decreases |s|
  {
    if |s| < |pat| {
      ShortNeverContains(s, pat);
    } else if pat <= s {
      RemoveShortens(s[|pat|..], pat);
    } else {
      RemoveShortens(s[1..], pat);
      assert s == [s[0]] + s[1..];
    }
  }

  /** No piece of the original text between two cuts holds the splice already. */
  predicate CleanPieces(s: string, cuts: seq<nat>, splice: string)
    requires Ascending(cuts, |s|)
    decreases |cuts|
  {
    if cuts == [] then !Contains(s, splice)
    else
      var last := |cuts| - 1;
      !Contains(s[cuts[last]..], splice) && CleanPieces(s[..cuts[last]], cuts[..last], splice)
  }

  lemma {:induction false} RemoveWoven(s: string, cuts: seq<nat>, splice: string)
    requires Ascending(cuts, |s|) && BorderFree(splice)
    ensures ReplaceAll(Woven(s, cuts, splice), splice, "") == s <==> CleanPieces(s, cuts, splice)
    ensures |ReplaceAll(Woven(s, cuts, splice), splice, "")| <= |s|
    decreases |cuts|
  {
    hide ReplaceAll, Contains, BorderFree;
    SepNonempty(splice);
    if cuts == [] {
      RemoveShortens(s, splice);
    } else {
      var last := |cuts| - 1;
      var c := cuts[last];
      var head, tail := Woven(s[..c], cuts[..last], splice), s[c..];
      ReplaceAt(head, splice, tail, "");
      RemoveWoven(s[..c], cuts[..last], splice);
      RemoveShortens(tail, splice);
      var left, right := ReplaceAll(head, splice, ""), ReplaceAll(tail, splice, "");
      assert ReplaceAll(Woven(s, cuts, splice), splice, "") == left + right;
      assert s == s[..c] + tail;
      if left + right == s {
        assert |left| == c && |right| == |tail|;
        assert left == s[..c] && right == tail;
      }
    }
  }

  lemma {:induction false} WholeTextClean(s: string, cuts: seq<nat>, splice: string)
    requires Ascending(cuts, |s|) && !Contains(s, splice)
    ensures CleanPieces(s, cuts, splice)
    decreases |cuts|
  {
    if cuts != [] {
      var last := |cuts| - 1;
      var c := cuts[last];
      assert s[..c] + s[c..] + "" == s && "" + s[..c] + s[c..] == s;
      if Contains(s[c..], splice) {
        ContainsExtend(s[..c], s[c..], "", splice);
      }
      if Contains(s[..c], splice) {
        ContainsExtend("", s[..c], s[c..], splice);
      }
      WholeTextClean(s[..c], cuts[..last], splice);
    }
  }

  /** Three lines, each after a line break, that differ early on: two copies cannot overlap. */
  lemma ThreeLinesBorderFree(a: string, b: string, c: string, all: string)
    requires all == "\n" + a + "\n" + b + "\n" + c
    requires '\n' !in a && '\n' !in b && '\n' !in c
    requires |a| > 4 && |b| > 4 && |c| > 4 && a[2] != b[2] && a[4] != c[4]
    ensures BorderFree(all)
  {
    var p := |a| + 1;
    var q := p + |b| + 1;
    EarlyCharacters(a, b, c, all);
    forall k | 0 < k < |all|
      ensures all[..k] != all[|all| - k..]
    {
      var from := |all| - k;
      var head, tail := all[..k], all[from..];
      if from == p {
        assert head[3] == all[3] && tail[3] == all[p + 3];
      } else if from == q {
        assert head[5] == all[5] && tail[5] == all[q + 5];
      } else {
        LineBreaks(a, b, c, all, from);
        assert head[0] == '\n' && tail[0] == all[from];
      }
    }
  }

  lemma EarlyCharacters(a: string, b: string, c: string, all: string)
    requires all == "\n" + a + "\n" + b + "\n" + c && |a| > 4 && |b| > 4 && |c| > 4
    ensures all[0] == '\n' && all[3] == a[2] && all[5] == a[4]
    ensures all[|a| + 4] == b[2] && all[|a| + |b| + 7] == c[4]
  {
    var ab := "\n" + a + "\n" + b;
    assert all == ab + ("\n" + c);
    assert all[|ab| + 5] == ("\n" + c)[5];
    assert ab == ("\n" + a) + ("\n" + b);
    assert ab[|a| + 4] == ("\n" + b)[3];
  }

  lemma LineBreaks(a: string, b: string, c: string, all: string, i: nat)
    requires all == "\n" + a + "\n" + b + "\n" + c
    requires '\n' !in a && '\n' !in b && '\n' !in c
    requires 0 < i < |all| && i != |a| + 1 && i != |a| + |b| + 2
    ensures all[i] != '\n'
  {
    if i <= |a| {
      assert all[i] == a[i - 1];
    } else if i <= |a| + |b| + 1 {
      assert all[i] == b[i - |a| - 2];
    } else {
      assert all[i] == c[i - |a| - |b| - 3];
    }
  }

  lemma NoBreaks()
    ensures '\n' !in IF_LINE && '\n' !in LABELS_LINE && '\n' !in END_LINE
  {
    assert '\n' !in ".Values.defaultRules";
    assert '\n' !in ".additionalRuleLabels";
    assert '\n' !in VALUE;
    assert '\n' !in "{{- if " && '\n' !in "{{ toYaml " && '\n' !in " | indent 8 }}" && '\n' !in " }}";
  }

  lemma SpliceBorderFree()
    ensures BorderFree("\n" + CONDITION)
  {
    NoBreaks();
    assert IF_LINE[2] == '-' && IF_LINE[4] == 'i' && LABELS_LINE[2] == ' ' && END_LINE[4] == 'e';
    assert "\n" + CONDITION == "\n" + IF_LINE + "\n" + LABELS_LINE + "\n" + END_LINE;
    ThreeLinesBorderFree(IF_LINE, LABELS_LINE, END_LINE, "\n" + CONDITION);
  }

  /** Removing the condition from the result gives the input back exactly when no piece of the input between
      two insertions held it already; in particular when the input did not hold it at all. */
  lemma RemovalGivesInputBack(rules: string, cuts: seq<nat>)
    requires Ascending(cuts, |rules|)
    ensures var splice := "\n" + CONDITION;
            && (ReplaceAll(Woven(rules, cuts, splice), splice, "") == rules <==> CleanPieces(rules, cuts, splice))
            && (!Contains(rules, splice) ==> CleanPieces(rules, cuts, splice))
  {
    hide *;
    var splice := "\n" + CONDITION;
    SpliceBorderFree();
    RemoveWoven(rules, cuts, splice);
    if !Contains(rules, splice) {
      WholeTextClean(rules, cuts, splice);
    }
  }
}
