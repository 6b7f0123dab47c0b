/** `add_rules_conditions`: for every entry of a table, the block of the alert with that name is wrapped into a
    template condition, line by line in the text of a rules file. */
module RuleConditions {
  import opened Text

  const IF_START: string := "{{- if"
  const END_LINE: string := "{{- end }}\n"

  function IfLine(condition: string): string {
    "{{- if " + condition + " }}\n"
  }

  /** How the line of an alert starts. */
  function LineStart(indent: nat): (start: string)
    ensures |start| == indent + 9 && start[0] in {' ', '-'}
    ensures ':' in start && '\n' !in start
  {
    var start := Spaces(indent) + "- alert: ";
    assert start[indent + 7] == ':';
    start
  }

  // ----- Searching -----

  /** Python's `str.index` from a place on, or -1. */
  function Find(s: string, pat: string, from: nat): (at: int)
    ensures -1 <= at <= |s|
    ensures at >= 0 ==> from <= at && OccursAt(s, pat, at)
    ensures forall j :: from <= j < (if at < 0 then |s| + 1 else at) ==> !OccursAt(s, pat, j)
    decreases |s| + 1 - from
  {
    if from > |s| then -1 else if OccursAt(s, pat, from) then from else Find(s, pat, from + 1)
  }

  /** Python's `str.rindex` of a line break in `s[lo..hi]`, or -1. */
  function LastBreak(s: string, lo: nat, hi: int): (at: int)
    requires hi <= |s|
    ensures -1 <= at < |s|
    ensures at >= 0 ==> lo <= at < hi && s[at] == '\n'
    ensures forall j :: lo <= j < hi && (at < 0 || at < j) ==> s[j] != '\n'
    decreases hi - lo
  {
    if hi <= lo then -1 else if s[hi - 1] == '\n' then hi - 1 else LastBreak(s, lo, hi - 1)
  }

  // ----- One condition -----

  /** The alert line at `lo` follows the condition line that was put in at `index`. */
  predicate AfterCondition(s: string, index: nat, lo: nat) {
    index < lo < |s| && s[lo - 1] == '\n' && s[lo] in {' ', '-'}
  }

  /** The end of a block: from `next`, step back over the condition lines of the alert that follows. */
  function BlockEnd(s: string, index: nat, lo: nat, last: nat, next: nat): (e: nat)
    requires AfterCondition(s, index, lo) && lo < last <= next <= |s|
    ensures lo < e <= next
    decreases last
  {
    var b := LastBreak(s, index, last - 1);
    if IF_START <= s[b + 1..next] then
      BreakInside(s, index, lo, last, next);
      BlockEnd(s, index, lo, b, b + 1)
    else next
  }

  /** The search for a line break never fails, and never gets behind the alert line. */
  lemma BreakInside(s: string, index: nat, lo: nat, last: nat, next: nat)
    requires AfterCondition(s, index, lo) && lo < last <= next <= |s|
    ensures var b := LastBreak(s, index, last - 1);
            lo - 1 <= b < last - 1 && (IF_START <= s[b + 1..next] ==> lo < b)
  {
    var b := LastBreak(s, index, last - 1);
    assert b >= lo - 1;
    if b == lo - 1 {
      assert s[b + 1..next][0] == s[lo];
    }
  }

  lemma BlockEndStep(s: string, index: nat, lo: nat, last: nat, next: nat)
    requires AfterCondition(s, index, lo) && lo < last <= next <= |s|
    ensures var b := LastBreak(s, index, last - 1);
            && b + 1 <= next
            && if IF_START <= s[b + 1..next]
               then lo < b < last - 1 && BlockEnd(s, index, lo, b, b + 1) == BlockEnd(s, index, lo, last, next)
               else BlockEnd(s, index, lo, last, next) == next
  {
    BreakInside(s, index, lo, last, next);
  }

  /** The text with the condition line in front of the alert. */
  function Opened(rules: string, index: nat, condition: string): string
    requires index <= |rules|
  {
    rules[..index] + IfLine(condition) + rules[index..]
  }

  lemma OpenedShape(rules: string, indent: nat, name: string, condition: string, index: nat)
    requires OccursAt(rules, LineStart(indent) + name, index)
    ensures AfterCondition(Opened(rules, index, condition), index, index + |IfLine(condition)|)
  {
    var s := Opened(rules, index, condition);
    var lo := index + |IfLine(condition)|;
    assert rules[index..index + |LineStart(indent) + name|][0] == rules[index];
    assert s[lo] == rules[index];
    assert s[lo - 1] == IfLine(condition)[|IfLine(condition)| - 1];
  }

  /** Where the end line of a condition goes. */
  function CloseAt(rules: string, indent: nat, name: string, condition: string, index: nat): (e: nat)
    requires OccursAt(rules, LineStart(indent) + name, index)
    ensures index + |IfLine(condition)| < e <= |Opened(rules, index, condition)|
  {
    var s := Opened(rules, index, condition);
    var lo := index + |IfLine(condition)|;
    OpenedShape(rules, indent, name, condition, index);
    var next := Find(s, LineStart(indent), lo + 1);
    var limit := if next < 0 then |s| else next;
    BlockEnd(s, index, lo, limit, limit)
  }

  /** The text with the first block of that name wrapped. */
  function OneCondition(rules: string, indent: nat, name: string, condition: string): string {
    var index := Find(rules, LineStart(indent) + name, 0);
    if index < 0 then rules
    else
      var s := Opened(rules, index, condition);
      var e := CloseAt(rules, indent, name, condition, index);
      s[..e] + END_LINE + s[e..]
  }

  lemma OneConditionSteps(rules: string, indent: nat, name: string, condition: string)
    ensures var index := Find(rules, LineStart(indent) + name, 0);
            if index < 0 then OneCondition(rules, indent, name, condition) == rules
            else
              var s := Opened(rules, index, condition);
              var lo := index + |IfLine(condition)|;
              var next := Find(s, LineStart(indent), lo + 1);
              var limit := if next < 0 then |s| else next;
              && AfterCondition(s, index, lo) && lo < limit
              && var e := BlockEnd(s, index, lo, limit, limit);
                 OneCondition(rules, indent, name, condition) == s[..e] + END_LINE + s[e..]
  {
    hide LineStart, IfLine, Find, BlockEnd, AfterCondition, Opened;
    var index := Find(rules, LineStart(indent) + name, 0);
    if index >= 0 {
      OpenedShape(rules, indent, name, condition, index);
      AlertInText(rules, indent, name, condition, index);
    }
  }

  lemma AlertInText(rules: string, indent: nat, name: string, condition: string, index: nat)
    requires OccursAt(rules, LineStart(indent) + name, index)
    ensures index + |IfLine(condition)| + 1 < |Opened(rules, index, condition)|
  {
    hide IfLine;
  }

  function AllConditions(rules: string, indent: nat, table: seq<(string, string)>): string {
    if table == [] then rules
    else
      var last := |table| - 1;
      OneCondition(AllConditions(rules, indent, table[..last]), indent, table[last].0, table[last].1)
  }

  /** `add_rules_conditions`; every search in it succeeds, whatever the text. */
  method AddRulesConditions(text: string, indent: nat, table: seq<(string, string)>) returns (rules: string)
    ensures rules == AllConditions(text, indent, table)
  {
    hide LineStart, IfLine, Find, LastBreak, AfterCondition, BlockEnd, OneCondition, CloseAt, OccursAt;
    rules := text;
    var lineStart := LineStart(indent);
    var k := 0;
    while k < |table|
      invariant 0 <= k <= |table|
      invariant rules == AllConditions(text, indent, table[..k])
    {
      var (name, condition) := table[k];
      assert table[..k + 1][..k] == table[..k];
      ghost var before := rules;
      OneConditionSteps(before, indent, name, condition);
      var index := Find(rules, lineStart + name, 0);
      if index >= 0 {
        var ruleText := IfLine(condition);
        rules := rules[..index] + ruleText + rules[index..];
        ghost var lo := index + |ruleText|;
        OpenedShape(before, indent, name, condition, index);
        var next := Find(rules, lineStart, index + |ruleText| + 1);
        if next < 0 {
          next := |rules|;
        }
        ghost var e := BlockEnd(rules, index, lo, next, next);
        var foundBlockEnd := false;
        var lastBreak := next;
        while !foundBlockEnd
          invariant lo < next <= |rules|
          invariant foundBlockEnd ==> next == e
          invariant !foundBlockEnd ==> lo < lastBreak <= next && BlockEnd(rules, index, lo, lastBreak, next) == e
          decreases !foundBlockEnd, lastBreak
        {
          BlockEndStep(rules, index, lo, lastBreak, next);
          lastBreak := LastBreak(rules, index, lastBreak - 1);
          var lastLine := rules[lastBreak + 1..next];
          if IF_START <= lastLine {
            next := lastBreak + 1;
            continue;
          }
          foundBlockEnd := true;
        }
        rules := rules[..next] + END_LINE + rules[next..];
      }
      k := k + 1;
    }
    assert table[..k] == table;
  }

  /** On every text a condition only adds: its own line directly before the alert's start, and the end line behind
      it. */
  lemma {:induction false} OnlyAdds(rules: string, indent: nat, name: string, condition: string)
    returns (a: string, b: string, c: string)
    ensures rules == a + b + c
    ensures OneCondition(rules, indent, name, condition)
            == if Find(rules, LineStart(indent) + name, 0) < 0 then rules
               else a + IfLine(condition) + b + END_LINE + c
    ensures Find(rules, LineStart(indent) + name, 0) >= 0 ==>
              && |a| == Find(rules, LineStart(indent) + name, 0)
              && LineStart(indent) + name <= b + c
              && b != [] && b[0] in {' ', '-'}
  {
    hide LineStart, IfLine, Find, OneCondition, BlockEnd, AfterCondition, Opened;
    var index := Find(rules, LineStart(indent) + name, 0);
    OneConditionSteps(rules, indent, name, condition);
    if index < 0 {
      a, b, c := rules, "", "";
    } else {
      var s := Opened(rules, index, condition);
      var lo := index + |IfLine(condition)|;
      var next := Find(s, LineStart(indent), lo + 1);
      var limit := if next < 0 then |s| else next;
      var e := BlockEnd(s, index, lo, limit, limit);
      a, b, c := OpenedParts(rules, index, condition, e);
      AlertStart(rules, LineStart(indent), name, index);
      assert b[0] == (b + c)[0];
    }
  }

  lemma OpenedParts(rules: string, index: nat, condition: string, e: nat) returns (a: string, b: string, c: string)
    requires index <= |rules| && index + |IfLine(condition)| < e <= |Opened(rules, index, condition)|
    ensures a == rules[..index] && rules == a + b + c && b + c == rules[index..] && b != []
    ensures var s := Opened(rules, index, condition); s[..e] == a + IfLine(condition) + b && s[e..] == c
  {
    hide IfLine;
    var lo := index + |IfLine(condition)|;
    var tail := rules[index..];
    a, b, c := rules[..index], tail[..e - lo], tail[e - lo..];
    assert rules == a + tail && tail == b + c;
    assert Opened(rules, index, condition) == a + IfLine(condition) + b + c;
  }

  lemma AlertStart(rules: string, start: string, name: string, index: nat)
    requires OccursAt(rules, start + name, index) && start != ""
    ensures start + name <= rules[index..] && rules[index..][0] == start[0]
  {
    assert rules[index..][..|start + name|] == start + name;
  }

  // ----- Files made of alert blocks -----

  /** An alert with the conditions it is wrapped in, the outermost first. */
  datatype Block = Block(conditions: seq<string>, body: string)

  function IfLines(conditions: seq<string>): string {
    if conditions == [] then "" else IfLines(conditions[..|conditions| - 1]) + IfLine(conditions[|conditions| - 1])
  }

  function EndLines(n: nat): string {
    if n == 0 then "" else EndLines(n - 1) + END_LINE
  }

  function RenderBlock(b: Block): string {
    IfLines(b.conditions) + b.body + EndLines(|b.conditions|)
  }

  function RenderAll(blocks: seq<Block>): string {
    if blocks == [] then "" else RenderBlock(blocks[0]) + RenderAll(blocks[1..])
  }

  predicate NoStart(s: string, start: string) {
    forall i :: 0 <= i <= |s| ==> !OccursAt(s, start, i)
  }

  /** A text of whole lines. */
  predicate Lines(s: string) {
    s == "" || s[|s| - 1] == '\n'
  }

  /** A condition fits on its line and looks like no alert. */
  predicate PlainCondition(condition: string) {
    '\n' !in condition && ':' !in condition
  }

  /** Whole lines, the first of which is the only one that starts an alert and the last of which is neither empty
      nor a condition. */
  predicate PlainBody(body: string, start: string) {
    && start <= body && Lines(body) && |body| >= 2
    && (forall i :: 0 < i <= |body| ==> !OccursAt(body, start, i))
    && var b := LastBreak(body, 0, |body| - 1);
       b + 2 < |body| && !(IF_START <= body[b + 1..])
  }

  predicate PlainBlock(b: Block, start: string) {
    PlainBody(b.body, start) && forall c :: c in b.conditions ==> PlainCondition(c)
  }

  predicate PlainBlocks(blocks: seq<Block>, start: string) {
    forall i :: 0 <= i < |blocks| ==> PlainBlock(blocks[i], start)
  }

  /** The blocks after one entry of the table: the first alert of that name gets one more, innermost condition. */
  function Wrap(blocks: seq<Block>, start: string, name: string, condition: string): (wrapped: seq<Block>)
    ensures |wrapped| == |blocks|
    ensures forall i :: 0 <= i < |blocks| ==> wrapped[i].body == blocks[i].body
  {
    if blocks == [] then []
    else if start + name <= blocks[0].body
    then [blocks[0].(conditions := blocks[0].conditions + [condition])] + blocks[1..]
    else [blocks[0]] + Wrap(blocks[1..], start, name, condition)
  }

  function WrapAll(blocks: seq<Block>, start: string, table: seq<(string, string)>): seq<Block> {
    if table == [] then blocks
    else
      var last := |table| - 1;
      Wrap(WrapAll(blocks, start, table[..last]), start, table[last].0, table[last].1)
  }

  // ----- Occurrences in concatenations -----

  /** A pattern without line breaks does not reach over the end of a text of whole lines. */
  lemma OccursSplit(a: string, b: string, pat: string, i: nat)
    requires Lines(a) && '\n' !in pat && pat != ""
    ensures OccursAt(a + b, pat, i) <==> if i < |a| then OccursAt(a, pat, i) else OccursAt(b, pat, i - |a|)
  {
    var s := a + b;
    if i >= |a| {
      if i + |pat| <= |s| {
        assert s[i..i + |pat|] == b[i - |a|..i - |a| + |pat|];
      }
    } else if i + |pat| <= |a| {
      assert s[i..i + |pat|] == a[i..i + |pat|];
    } else if i + |pat| <= |s| {
      assert s[i..i + |pat|][|a| - 1 - i] == '\n';
    }
  }

  lemma NoStartAppend(a: string, b: string, start: string)
    requires Lines(a) && '\n' !in start && start != ""
    ensures NoStart(a + b, start) <==> NoStart(a, start) && NoStart(b, start)
  {
    forall i | 0 <= i <= |a + b|
      ensures OccursAt(a + b, start, i) <==> if i < |a| then OccursAt(a, start, i) else OccursAt(b, start, i - |a|)
    {
      OccursSplit(a, b, start, i);
    }
    if NoStart(a + b, start) {
      forall j | 0 <= j <= |a|
        ensures !OccursAt(a, start, j)
      {
        assert j < |a| ==> !OccursAt(a + b, start, j);
      }
      forall j | 0 <= j <= |b|
        ensures !OccursAt(b, start, j)
      {
        assert !OccursAt(a + b, start, |a| + j);
      }
    }
  }

  lemma NoColonNoStart(s: string, start: string)
    requires ':' in start && ':' !in s
    ensures NoStart(s, start)
  {
    var k :| 0 <= k < |start| && start[k] == ':';
    forall i | 0 <= i <= |s|
      ensures !OccursAt(s, start, i)
    {
      if i + |start| <= |s| {
        assert s[i..i + |start|][k] == s[i + k];
      }
    }
  }

  lemma LinesAppend(a: string, b: string)
    requires Lines(a) && Lines(b)
    ensures Lines(a + b)
  {
  }

  lemma {:induction false} IfLinesPlain(conditions: seq<string>)
    requires forall c :: c in conditions ==> PlainCondition(c)
    ensures Lines(IfLines(conditions)) && ':' !in IfLines(conditions)
  {
    if conditions != [] {
      IfLinesPlain(conditions[..|conditions| - 1]);
      assert PlainCondition(conditions[|conditions| - 1]);
    }
  }

  lemma {:induction false} EndLinesPlain(n: nat)
    ensures Lines(EndLines(n)) && ':' !in EndLines(n)
  {
    if n > 0 {
      EndLinesPlain(n - 1);
    }
  }

  // ----- Stepping back over condition lines -----

  /** The last break before the last line of `line`, after a break. */
  lemma LastBreakAt(s: string, index: nat, at: nat, hi: nat)
    requires index <= at < hi <= |s| && s[at] == '\n'
    requires forall j :: at < j < hi ==> s[j] != '\n'
    ensures LastBreak(s, index, hi) == at
  {
  }

  /** A text that ends in plain condition lines, which follow a nonempty line that is none. */
  lemma {:induction false} StepBack(s: string, index: nat, lo: nat, front: string, conditions: seq<string>, rest: string, last: nat)
    requires forall c :: c in conditions ==> PlainCondition(c)
    requires s == front + IfLines(conditions) + rest
    requires AfterCondition(s, index, lo) && lo < |front| && Solid(front, index)
    requires var next := |front| + |IfLines(conditions)|; lo < last && (last == next || last == next - 1)
    ensures BlockEnd(s, index, lo, last, |front| + |IfLines(conditions)|) == |front|
    decreases |conditions|
  {
    hide IfLine, BlockEnd, Solid, AfterCondition;
    if conditions == [] {
      assert IfLines(conditions) == "";
      assert s == front + rest;
      SolidStops(s, index, lo, front, rest, last);
    } else {
      var n := |conditions| - 1;
      var init, c := conditions[..n], conditions[n];
      assert PlainCondition(c);
      var before := front + IfLines(init);
      IfLinesPlain(init);
      SolidLines(front, index);
      LinesAppend(front, IfLines(init));
      assert s == before + (IfLine(c) + rest);
      OneStepBack(s, index, lo, before, c, rest, last);
      StepBack(s, index, lo, front, init, IfLine(c) + rest, |before| - 1);
    }
  }

  /** Whole lines from `index` on, the last of them neither empty nor a condition. */
  predicate Solid(front: string, index: nat) {
    && index < |front| && Lines(front)
    && var b := LastBreak(front, index, |front| - 1);
       b >= 0 && b + 2 < |front| && !(IF_START <= front[b + 1..])
  }

  lemma SolidLines(front: string, index: nat)
    requires Solid(front, index)
    ensures index < |front| && Lines(front)
  {
  }

  lemma SolidStops(s: string, index: nat, lo: nat, front: string, rest: string, last: nat)
    requires s == front + rest && AfterCondition(s, index, lo) && lo < |front| && Solid(front, index)
    requires lo < last && (last == |front| || last == |front| - 1)
    ensures BlockEnd(s, index, lo, last, |front|) == |front|
  {
    hide LastBreak, BlockEnd;
    var b := LastBreak(front, index, |front| - 1);
    assert forall j :: 0 <= j < |front| ==> s[j] == front[j];
    assert b < last - 1;
    LastBreakAt(s, index, b, last - 1);
    assert s[b + 1..|front|] == front[b + 1..];
    BlockEndStep(s, index, lo, last, |front|);
  }

  lemma OneStepBack(s: string, index: nat, lo: nat, before: string, c: string, rest: string, last: nat)
    requires PlainCondition(c) && Lines(before) && index < |before|
    requires s == before + (IfLine(c) + rest)
    requires AfterCondition(s, index, lo) && lo < |before|
    requires var next := |before| + |IfLine(c)|; lo < last && (last == next || last == next - 1)
    ensures |before| - 1 > lo
    ensures BlockEnd(s, index, lo, last, |before| + |IfLine(c)|) == BlockEnd(s, index, lo, |before| - 1, |before|)
  {
    hide IfLine, LastBreak, BlockEnd;
    var line := IfLine(c);
    IfLineShape(c);
    BlockEndStep(s, index, lo, last, |before| + |line|);
    assert s[|before| - 1] == before[|before| - 1] == '\n';
    assert s[lo] == before[lo];
    assert forall j :: |before| <= j < |before| + |line| ==> s[j] == line[j - |before|];
    LastBreakAt(s, index, |before| - 1, last - 1);
    assert s[|before|..|before| + |line|] == line;
  }

  lemma IfLineShape(c: string)
    requires PlainCondition(c)
    ensures IF_START <= IfLine(c) && |IfLine(c)| > 2 && Lines(IfLine(c))
    ensures forall j :: 0 <= j < |IfLine(c)| - 1 ==> IfLine(c)[j] != '\n'
  {
    forall j | 0 <= j < |IfLine(c)| - 1
      ensures IfLine(c)[j] != '\n'
    {
      LineBreakLast(c, j);
    }
  }

  lemma LineBreakLast(c: string, j: nat)
    requires PlainCondition(c) && j < |IfLine(c)| - 1
    ensures IfLine(c)[j] != '\n'
  {
    var line := IfLine(c);
    if j < 7 {
      assert line[j] == "{{- if "[j];
    } else if j < 7 + |c| {
      assert line[j] == c[j - 7];
    } else {
      assert line[j] == " }}\n"[j - 7 - |c|];
    }
  }

  // ----- One condition on a file of blocks -----

  /** A block that is not of that name is passed over. */
  lemma SkipBlock(front: string, b: Block, rest: string, start: string, name: string)
    requires Lines(front) && PlainBlock(b, start) && !(start + name <= b.body)
    requires ':' in start && '\n' !in start && '\n' !in name
    requires NoStart(front, start + name)
    ensures Lines(front + RenderBlock(b)) && NoStart(front + RenderBlock(b), start + name)
  {
    hide PlainBody, NoStart, IfLines, EndLines, Lines, OccursAt, RenderBlock;
    var pat := start + name;
    var ifs, ends := IfLines(b.conditions), EndLines(|b.conditions|);
    IfLinesPlain(b.conditions);
    EndLinesPlain(|b.conditions|);
    NoColonNoStart(ifs, pat);
    NoColonNoStart(ends, pat);
    BodyWithoutName(b.body, start, name);
    PlainAppend(front, ifs, pat);
    PlainAppend(front + ifs, b.body, pat);
    PlainAppend(front + ifs + b.body, ends, pat);
    BlockText(front, b);
  }

  lemma PlainAppend(a: string, b: string, pat: string)
    requires Lines(a) && Lines(b) && NoStart(a, pat) && NoStart(b, pat) && '\n' !in pat && pat != ""
    ensures Lines(a + b) && NoStart(a + b, pat)
  {
    hide NoStart;
    LinesAppend(a, b);
    NoStartAppend(a, b, pat);
  }

  lemma BlockText(front: string, b: Block)
    ensures front + RenderBlock(b) == front + IfLines(b.conditions) + b.body + EndLines(|b.conditions|)
  {
    hide IfLines, EndLines;
  }

  lemma BodyWithoutName(body: string, start: string, name: string)
    requires PlainBody(body, start) && !(start + name <= body)
    ensures Lines(body) && NoStart(body, start + name)
  {
    var pat := start + name;
    forall i | 0 <= i <= |body|
      ensures !OccursAt(body, pat, i)
    {
      LongerOccurs(body, start, name, i);
    }
  }

  lemma LongerOccurs(s: string, start: string, name: string, i: nat)
    ensures OccursAt(s, start + name, i) ==> OccursAt(s, start, i) && (i == 0 ==> start + name <= s)
  {
    if OccursAt(s, start + name, i) {
      assert s[i..i + |start|] == s[i..i + |start + name|][..|start|] == start;
      assert i == 0 ==> s[..|start + name|] == start + name;
    }
  }

  lemma BodyStart(body: string, start: string)
    requires PlainBody(body, start)
    ensures |body| >= 2 && Lines(body) && start <= body
    ensures forall i :: 0 < i <= |body| ==> !OccursAt(body, start, i)
  {
  }

  /** The alert line is found where the first block of that name begins. */
  lemma FoundAt(front: string, body: string, rest: string, start: string, name: string)
    requires Lines(front) && NoStart(front, start + name) && start + name <= body
    requires start != "" && '\n' !in start && '\n' !in name
    ensures Find(front + (body + rest), start + name, 0) == |front|
  {
    hide Find, NoStart, OccursAt;
    var pat := start + name;
    PrefixOccurs(front, body + rest, pat);
    NoStartBefore(front, body + rest, pat);
  }

  lemma NoStartBefore(front: string, rest: string, pat: string)
    requires Lines(front) && NoStart(front, pat) && '\n' !in pat && pat != ""
    ensures forall i :: 0 <= i < |front| ==> !OccursAt(front + rest, pat, i)
  {
    forall i | 0 <= i < |front|
      ensures !OccursAt(front + rest, pat, i)
    {
      OccursSplit(front, rest, pat, i);
    }
  }

  lemma PrefixOccurs(a: string, rest: string, pat: string)
    requires pat <= rest
    ensures OccursAt(a + rest, pat, |a|)
  {
    assert (a + rest)[|a|..|a| + |pat|] == rest[..|pat|];
  }

  lemma TooLate(s: string, pat: string, i: int)
    requires pat != "" && i >= |s|
    ensures !OccursAt(s, pat, i)
  {
  }

  lemma NoneInBlock(head: string, body: string, between: string, rest: string, start: string)
    requires Lines(head) && PlainBody(body, start) && Lines(between) && NoStart(between, start)
    requires '\n' !in start && start != ""
    ensures forall i :: |head| < i < |head| + |body| + |between| ==>
              !OccursAt(head + (body + (between + rest)), start, i)
  {
    hide NoStart, PlainBody, OccursAt;
    BodyStart(body, start);
    NoStartBefore(between, rest, start);
    forall i | |head| < i < |head| + |body| + |between|
      ensures !OccursAt(head + (body + (between + rest)), start, i)
    {
      OccursSplit(head, body + (between + rest), start, i);
      OccursSplit(body, between + rest, start, i - |head|);
    }
  }

  /** The next alert line, looked for from inside the current one: behind the end lines of the current block and
      the condition lines of the next one. */
  lemma NextAt(head: string, body: string, between: string, rest: string, start: string)
    requires Lines(head) && PlainBody(body, start) && Lines(between) && NoStart(between, start)
    requires '\n' !in start && start != ""
    requires rest == "" || start <= rest
    ensures var s := head + (body + (between + rest));
            Find(s, start, |head| + 1) == if rest == "" then -1 else |head| + |body| + |between|
  {
    hide *;
    BodyStart(body, start);
    NoneInBlock(head, body, between, rest, start);
    var s := head + (body + (between + rest));
    var front := head + body + between;
    assert s == front + rest;
    if rest != "" {
      PrefixOccurs(front, rest, start);
    }
    FindNext(s, start, |head| + 1, |front|, rest == "");
  }

  lemma FindNext(s: string, pat: string, from: nat, at: nat, ends: bool)
    requires pat != "" && from <= at <= |s| && forall j :: from <= j < at ==> !OccursAt(s, pat, j)
    requires if ends then at == |s| else OccursAt(s, pat, at)
    ensures Find(s, pat, from) == if ends then -1 else at
  {
    hide Find, OccursAt;
    if ends {
      TooLate(s, pat, at);
      FindNone(s, pat, from);
    } else {
      FindIs(s, pat, from, at);
    }
  }

  lemma FindIs(s: string, pat: string, from: nat, at: nat)
    requires from <= at <= |s| && OccursAt(s, pat, at) && forall j :: from <= j < at ==> !OccursAt(s, pat, j)
    ensures Find(s, pat, from) == at
  {
    hide Find, OccursAt;
    var found := Find(s, pat, from);
    assert found >= 0;
  }

  lemma FindNone(s: string, pat: string, from: nat)
    requires forall j :: from <= j <= |s| ==> !OccursAt(s, pat, j)
    ensures Find(s, pat, from) == -1
  {
    hide Find, OccursAt;
  }

  /** What follows a block: nothing, or the condition lines of the next one and its body. */
  function NextIfs(blocks: seq<Block>): string {
    if blocks == [] then "" else IfLines(blocks[0].conditions)
  }

  function FromBody(blocks: seq<Block>): string {
    if blocks == [] then ""
    else blocks[0].body + (EndLines(|blocks[0].conditions|) + RenderAll(blocks[1..]))
  }

  lemma Regroup(a: string, b: string, c: string, d: string)
    ensures (a + b + c) + d == a + (b + (c + d))
  {
  }

  lemma AfterBlock(blocks: seq<Block>, start: string)
    requires PlainBlocks(blocks, start)
    ensures RenderAll(blocks) == NextIfs(blocks) + FromBody(blocks)
    ensures FromBody(blocks) == "" || start <= FromBody(blocks)
    ensures blocks == [] ==> FromBody(blocks) == ""
  {
    hide IfLines, EndLines, PlainBody;
    if blocks != [] {
      var b := blocks[0];
      assert PlainBlock(b, start);
      BodyStart(b.body, start);
      Regroup(IfLines(b.conditions), b.body, EndLines(|b.conditions|), RenderAll(blocks[1..]));
    }
  }

  /** The text before the end line is solid: it ends with the last line of the body or with an end line. */
  lemma {:induction false} SolidBlock(head: string, body: string, n: nat, start: string)
    requires Lines(head) && head != "" && PlainBody(body, start)
    ensures Solid(head + body + EndLines(n), |head| - 1)
  {
    hide LastBreak, PlainBody, Solid;
    var front := head + body + EndLines(n);
    var index := |head| - 1;
    EndLinesPlain(n);
    BodyStart(body, start);
    if n == 0 {
      assert front == head + body;
      SolidBody(head, body, start);
    } else {
      var before := head + body + EndLines(n - 1);
      EndLinesPlain(n - 1);
      LinesAppend(head, body);
      LinesAppend(head + body, EndLines(n - 1));
      assert front == before + END_LINE;
      SolidEnd(before, index);
    }
  }

  lemma SolidEnd(before: string, index: nat)
    requires Lines(before) && index < |before|
    ensures Solid(before + END_LINE, index)
  {
    hide LastBreak;
    var front := before + END_LINE;
    assert front[|before| - 1] == '\n';
    assert forall j :: |before| <= j < |front| ==> front[j] == END_LINE[j - |before|];
    LastBreakAt(front, index, |before| - 1, |front| - 1);
    assert front[|before|..] == END_LINE;
    assert END_LINE[4] != IF_START[4];
  }

  lemma SolidBody(head: string, body: string, start: string)
    requires Lines(head) && head != "" && PlainBody(body, start)
    ensures Solid(head + body, |head| - 1)
  {
    hide *;
    var front := head + body;
    BodyEnd(body, start);
    LinesAppend(head, body);
    ShiftedBreak(head, body);
    var b := LastBreak(body, 0, |body| - 1);
    ShiftedTail(head, body, b + 1);
    SolidBy(front, |head| - 1, |head| + b);
  }

  lemma ShiftedTail(head: string, body: string, k: nat)
    requires k <= |body|
    ensures (head + body)[|head| + k..] == body[k..]
  {
  }

  lemma BodyEnd(body: string, start: string)
    requires PlainBody(body, start)
    ensures Lines(body) && |body| >= 2
    ensures var b := LastBreak(body, 0, |body| - 1); b + 2 < |body| && !(IF_START <= body[b + 1..])
  {
    hide LastBreak, OccursAt;
  }

  lemma SolidBy(front: string, index: nat, b: nat)
    requires index < |front| && Lines(front) && LastBreak(front, index, |front| - 1) == b
    requires b + 2 < |front| && !(IF_START <= front[b + 1..])
    ensures Solid(front, index)
  {
    hide LastBreak;
  }

  /** The last break of a text behind whole lines; without one of its own it is that of the last line. */
  lemma ShiftedBreak(head: string, body: string)
    requires Lines(head) && head != "" && body != ""
    ensures LastBreak(head + body, |head| - 1, |head + body| - 1) == |head| + LastBreak(body, 0, |body| - 1)
  {
    hide LastBreak;
    var front := head + body;
    var b := LastBreak(body, 0, |body| - 1);
    forall j | |head| + b < j < |front| - 1
      ensures front[j] != '\n'
    {
      assert front[j] == body[j - |head|];
    }
    assert front[|head| + b] == if b < 0 then head[|head| - 1] else body[b];
    LastBreakAt(front, |head| - 1, |head| + b, |front| - 1);
  }

  lemma SolidFrom(front: string, index: nat, at: nat)
    requires index <= at && Solid(front, at)
    ensures Solid(front, index)
  {
    LastBreakAt(front, index, LastBreak(front, at, |front| - 1), |front| - 1);
  }

  /** The block of that name, found behind `front`, is wrapped. */
  lemma WrapsBlock(front: string, b: Block, after: seq<Block>, indent: nat, name: string, condition: string)
    requires var start := LineStart(indent);
             && Lines(front) && NoStart(front, start + name) && '\n' !in name
             && PlainBlock(b, start) && PlainBlocks(after, start) && start + name <= b.body
             && PlainCondition(condition)
    ensures OneCondition(front + RenderBlock(b) + RenderAll(after), indent, name, condition)
         == front + RenderBlock(b.(conditions := b.conditions + [condition])) + RenderAll(after)
  {
    hide *;
    var start := LineStart(indent);
    BlockBody(b, start);
    var pre, ends := front + IfLines(b.conditions), EndLines(|b.conditions|);
    var rest := RenderAll(after);
    WrapsFound(front, b, rest, indent, name, condition);
    WrapsClosed(pre, b.body, |b.conditions|, after, indent, name, condition);
    WrappedText(front, b, rest, condition);
  }

  lemma BlockBody(b: Block, start: string)
    requires PlainBlock(b, start)
    ensures PlainBody(b.body, start)
  {
  }

  /** The text around the block, with the place of the alert line. */
  lemma WrapsFound(front: string, b: Block, rest: string, indent: nat, name: string, condition: string)
    requires var start := LineStart(indent);
             Lines(front) && NoStart(front, start + name) && '\n' !in name && PlainBlock(b, start) && start + name <= b.body
    ensures var pre := front + IfLines(b.conditions);
            && Lines(pre)
            && front + RenderBlock(b) + rest == pre + (b.body + (EndLines(|b.conditions|) + rest))
            && Find(front + RenderBlock(b) + rest, LineStart(indent) + name, 0) == |pre|
  {
    hide PlainBody, Find, IfLines, EndLines, LineStart, Lines, NoStart, OccursAt;
    var start := LineStart(indent);
    var ifs := IfLines(b.conditions);
    IfLinesPlain(b.conditions);
    NoColonNoStart(ifs, start + name);
    LinesAppend(front, ifs);
    NoStartAppend(front, ifs, start + name);
    FoundAt(front + ifs, b.body, EndLines(|b.conditions|) + rest, start, name);
    Regroup(ifs, b.body, EndLines(|b.conditions|), rest);
    assert front + RenderBlock(b) + rest == front + (RenderBlock(b) + rest);
    assert (front + ifs) + (b.body + (EndLines(|b.conditions|) + rest)) == front + (ifs + (b.body + (EndLines(|b.conditions|) + rest)));
  }

  lemma WrapsClosed(pre: string, body: string, n: nat, after: seq<Block>, indent: nat, name: string, condition: string)
    requires var start := LineStart(indent);
             && Lines(pre) && PlainBody(body, start) && PlainBlocks(after, start) && start + name <= body
             && PlainCondition(condition)
             && Find(pre + (body + (EndLines(n) + RenderAll(after))), start + name, 0) == |pre|
    ensures OneCondition(pre + (body + (EndLines(n) + RenderAll(after))), indent, name, condition)
         == pre + IfLine(condition) + body + EndLines(n) + END_LINE + RenderAll(after)
  {
    hide *;
    var start := LineStart(indent);
    var ends, ifs, rest := EndLines(n), NextIfs(after), FromBody(after);
    var text := pre + (body + (ends + RenderAll(after)));
    var head := pre + IfLine(condition);
    var front := head + body + ends;
    AfterBlock(after, start);
    ConditionLine(condition);
    LinesAppend(pre, IfLine(condition));
    BetweenPlain(n, after, start);
    OpenedText(pre, body, ends, ifs, rest, condition);
    var s := Opened(text, |pre|, condition);
    NextAt(head, body, ends + ifs, rest, start);
    OneConditionSteps(text, indent, name, condition);
    FrontSolid(pre, body, n, condition, start);
    ClosesBefore(s, |pre|, |head|, front, after, rest, start);
    assert s[..|front|] == front && s[|front|..] == ifs + rest;
  }

  lemma OpenedText(pre: string, body: string, ends: string, ifs: string, rest: string, condition: string)
    ensures var text := pre + (body + (ends + (ifs + rest)));
            var head := pre + IfLine(condition);
            var s := Opened(text, |pre|, condition);
            && s == head + (body + ((ends + ifs) + rest))
            && s == (head + body + ends) + ifs + rest
            && s == (head + body + ends) + (ifs + rest)
  {
    hide IfLine;
    var tail := body + (ends + (ifs + rest));
    assert (pre + tail)[..|pre|] == pre && (pre + tail)[|pre|..] == tail;
    assert tail == body + ((ends + ifs) + rest);
  }

  /** The text up to the end line of the new condition is solid. */
  lemma FrontSolid(pre: string, body: string, n: nat, condition: string, start: string)
    requires Lines(pre) && PlainBody(body, start)
    ensures var head := pre + IfLine(condition);
            Solid(head + body + EndLines(n), |pre|) && |head| < |head + body + EndLines(n)|
  {
    hide IfLine, PlainBody, EndLines, Solid;
    var head := pre + IfLine(condition);
    ConditionLine(condition);
    LinesAppend(pre, IfLine(condition));
    SolidBlock(head, body, n, start);
    SolidFrom(head + body + EndLines(n), |pre|, |head| - 1);
    BodyStart(body, start);
  }

  lemma ConditionLine(condition: string)
    ensures Lines(IfLine(condition)) && |IfLine(condition)| > 0
  {
  }

  lemma BetweenPlain(n: nat, after: seq<Block>, start: string)
    requires ':' in start && PlainBlocks(after, start)
    ensures Lines(EndLines(n) + NextIfs(after)) && NoStart(EndLines(n) + NextIfs(after), start)
    ensures ':' !in NextIfs(after)
  {
    EndLinesPlain(n);
    if after != [] {
      assert PlainBlock(after[0], start);
      IfLinesPlain(after[0].conditions);
    }
    LinesAppend(EndLines(n), NextIfs(after));
    NoColonNoStart(EndLines(n) + NextIfs(after), start);
  }

  lemma {:induction false} ClosesBefore(s: string, index: nat, lo: nat, front: string, after: seq<Block>, rest: string, start: string)
    requires PlainBlocks(after, start) && s == front + NextIfs(after) + rest
    requires after == [] ==> rest == ""
    requires AfterCondition(s, index, lo) && lo < |front| && Solid(front, index)
    ensures var next := |front| + |NextIfs(after)|;
            next <= |s| && BlockEnd(s, index, lo, next, next) == |front|
  {
    hide PlainBody, BlockEnd, AfterCondition, Solid;
    var conditions := if after == [] then [] else after[0].conditions;
    if after != [] {
      assert PlainBlock(after[0], start);
    }
    assert NextIfs(after) == IfLines(conditions);
    StepBack(s, index, lo, front, conditions, rest, |front| + |NextIfs(after)|);
  }

  lemma WrappedText(front: string, b: Block, rest: string, condition: string)
    ensures front + RenderBlock(b.(conditions := b.conditions + [condition])) + rest
         == (front + IfLines(b.conditions)) + IfLine(condition) + b.body + EndLines(|b.conditions|) + END_LINE + rest
  {
    var more := b.conditions + [condition];
    assert more[..|more| - 1] == b.conditions;
    assert IfLines(more) == IfLines(b.conditions) + IfLine(condition);
    assert EndLines(|more|) == EndLines(|b.conditions|) + END_LINE;
  }

  /** One entry of the table wraps the first block of its name. */
  lemma {:induction false} OneConditionWraps(front: string, blocks: seq<Block>, indent: nat, name: string, condition: string)
    requires var start := LineStart(indent);
             && Lines(front) && NoStart(front, start + name) && '\n' !in name
             && PlainBlocks(blocks, start) && PlainCondition(condition)
    ensures OneCondition(front + RenderAll(blocks), indent, name, condition)
         == front + RenderAll(Wrap(blocks, LineStart(indent), name, condition))
    decreases |blocks|
  {
    hide LineStart, PlainBlock, OneCondition, RenderBlock, Lines, NoStart;
    var start := LineStart(indent);
    if blocks == [] {
      NameAbsent(front, indent, name, condition);
      assert front + RenderAll(blocks) == front;
    } else {
      var b, after := blocks[0], blocks[1..];
      assert PlainBlocks(after, start);
      assert front + RenderAll(blocks) == front + RenderBlock(b) + RenderAll(after);
      if start + name <= b.body {
        WrapsBlock(front, b, after, indent, name, condition);
        var wrapped := b.(conditions := b.conditions + [condition]);
        assert ([wrapped] + after)[1..] == after;
        assert front + (RenderBlock(wrapped) + RenderAll(after)) == front + RenderBlock(wrapped) + RenderAll(after);
      } else {
        SkipBlock(front, b, RenderAll(after), start, name);
        OneConditionWraps(front + RenderBlock(b), after, indent, name, condition);
        var more := Wrap(after, start, name, condition);
        assert ([b] + more)[1..] == more;
        assert front + (RenderBlock(b) + RenderAll(more)) == front + RenderBlock(b) + RenderAll(more);
      }
    }
  }

  lemma NameAbsent(front: string, indent: nat, name: string, condition: string)
    requires NoStart(front, LineStart(indent) + name)
    ensures OneCondition(front, indent, name, condition) == front
  {
    hide LineStart;
  }

  lemma {:induction false} WrapKeepsPlain(blocks: seq<Block>, start: string, name: string, condition: string)
    requires PlainBlocks(blocks, start) && PlainCondition(condition)
    ensures PlainBlocks(Wrap(blocks, start, name, condition), start)
    decreases |blocks|
  {
    hide PlainBody;
    if blocks != [] && !(start + name <= blocks[0].body) {
      WrapKeepsPlain(blocks[1..], start, name, condition);
    }
  }

  predicate PlainTable(table: seq<(string, string)>) {
    forall i :: 0 <= i < |table| ==> '\n' !in table[i].0 && PlainCondition(table[i].1)
  }

  /** The whole table: a file of a head and alert blocks comes out as the same head and the same blocks, each
      wrapped in the conditions of the entries that name it, every condition closed right after its own block. */
  lemma {:induction false} ConditionsNest(head: string, blocks: seq<Block>, indent: nat, table: seq<(string, string)>)
    requires Lines(head) && NoStart(head, LineStart(indent))
    requires PlainBlocks(blocks, LineStart(indent)) && PlainTable(table)
    ensures PlainBlocks(WrapAll(blocks, LineStart(indent), table), LineStart(indent))
    ensures AllConditions(head + RenderAll(blocks), indent, table)
         == head + RenderAll(WrapAll(blocks, LineStart(indent), table))
    decreases |table|
  {
    hide LineStart, PlainBlocks, OneCondition, RenderAll, Lines, NoStart;
    if table != [] {
      var last := |table| - 1;
      var start := LineStart(indent);
      var (name, condition) := table[last];
      ConditionsNest(head, blocks, indent, table[..last]);
      var wrapped := WrapAll(blocks, start, table[..last]);
      LongerAbsent(head, start, name);
      OneConditionWraps(head, wrapped, indent, name, condition);
      WrapKeepsPlain(wrapped, start, name, condition);
    }
  }

  lemma LongerAbsent(s: string, start: string, name: string)
    requires NoStart(s, start)
    ensures NoStart(s, start + name)
  {
    forall i | 0 <= i <= |s|
      ensures !OccursAt(s, start + name, i)
    {
      LongerOccurs(s, start, name, i);
    }
  }
}
