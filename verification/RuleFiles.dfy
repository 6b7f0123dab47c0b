/** A rules file on its way through the generator: labels are spliced into every alert block first, and then the
    blocks are wrapped in conditions. */
module RuleFiles {
  import opened Text
  import opened RuleConditions
  import RuleSplice

  // ----- Unconditioned blocks -----

  /** The generator starts from blocks that no condition wraps. */
  function Bare(bodies: seq<string>): (blocks: seq<Block>)
    ensures |blocks| == |bodies| && forall i :: 0 <= i < |bodies| ==> blocks[i] == Block([], bodies[i])
  {
    seq(|bodies|, i requires 0 <= i < |bodies| => Block([], bodies[i]))
  }

  function Concat(bodies: seq<string>): string {
    if bodies == [] then "" else Concat(bodies[..|bodies| - 1]) + bodies[|bodies| - 1]
  }

  /** A body with the condition lines at its end: the splice goes before its last line break. */
  function Labelled(body: string, condition: string): string {
    body + condition + "\n"
  }

  function AllLabelled(bodies: seq<string>, condition: string): (labelled: seq<string>)
    ensures |labelled| == |bodies| && forall i :: 0 <= i < |bodies| ==> labelled[i] == Labelled(bodies[i], condition)
  {
    seq(|bodies|, i requires 0 <= i < |bodies| => Labelled(bodies[i], condition))
  }

  /** A body of whole lines that starts with the marker and does not hold it again. */
  predicate MarkedBody(body: string, marker: string) {
    && marker <= body && Lines(body) && |marker| < |body|
    && forall i :: 0 < i <= |body| ==> !OccursAt(body, marker, i)
  }

  predicate MarkedBodies(bodies: seq<string>, marker: string) {
    forall i :: 0 <= i < |bodies| ==> MarkedBody(bodies[i], marker)
  }

  // ----- The alert lines of such a file -----

  function Offsets(at: nat, bodies: seq<string>): (offsets: seq<nat>)
    ensures |offsets| == |bodies|
  {
    if bodies == [] then []
    else Offsets(at, bodies[..|bodies| - 1]) + [at + |Concat(bodies[..|bodies| - 1])|]
  }

  lemma {:induction false} SkipTo(s: string, marker: string, from: nat, to: nat)
    requires marker != "" && from <= to <= |s|
    requires forall i :: from <= i < to ==> !OccursAt(s, marker, i)
    ensures RuleSplice.AlertStarts(s, marker, from) == RuleSplice.AlertStarts(s, marker, to)
    decreases |s| - from
  {
    if from < to {
      SkipTo(s, marker, from + 1, to);
    }
  }

  lemma {:induction false} ConcatFront(bodies: seq<string>)
    requires bodies != []
    ensures Concat(bodies) == bodies[0] + Concat(bodies[1..])
  {
    var n := |bodies| - 1;
    if n == 0 {
      assert bodies[..0] == [] && bodies[1..] == [];
    } else {
      ConcatFront(bodies[..n]);
      assert bodies[..n][1..] == bodies[1..][..n - 1];
      assert bodies[0] + (Concat(bodies[1..][..n - 1]) + bodies[n]) == bodies[0] + Concat(bodies[1..][..n - 1]) + bodies[n];
    }
  }

  lemma {:induction false} OffsetsFront(at: nat, bodies: seq<string>)
    requires bodies != []
    ensures Offsets(at, bodies) == [at] + Offsets(at + |bodies[0]|, bodies[1..])
  {
    var n := |bodies| - 1;
    if n == 0 {
      assert bodies[..0] == [] && bodies[1..] == [];
    } else {
      OffsetsFront(at, bodies[..n]);
      ConcatFront(bodies[..n]);
      assert bodies[..n][1..] == bodies[1..][..n - 1];
    }
  }

  lemma AlertSkips(s: string, marker: string, at: nat, end: nat)
    requires marker != "" && OccursAt(s, marker, at) && at + |marker| < end <= |s| && s[end - 1] == '\n'
    requires forall i :: at < i < end ==> !OccursAt(s, marker, i)
    ensures RuleSplice.AlertStarts(s, marker, at) == [at] + RuleSplice.AlertStarts(s, marker, end)
  {
    hide RuleSplice.AlertStarts, OccursAt, RuleSplice.LineEnd;
    AlertHere(s, marker, at);
    SkipTo(s, marker, RuleSplice.LineEnd(s, at + |marker|), end);
  }

  /** From the start of a body the search goes on at the next one. */
  lemma NextBody(pre: string, body: string, rest: string, marker: string)
    requires Lines(pre) && MarkedBody(body, marker) && marker != "" && '\n' !in marker
    ensures var s := pre + (body + rest);
            RuleSplice.AlertStarts(s, marker, |pre|) == [|pre|] + RuleSplice.AlertStarts(s, marker, |pre| + |body|)
  {
    hide *;
    BodyFacts(pre, body, rest, marker);
    AlertSkips(pre + (body + rest), marker, |pre|, |pre| + |body|);
  }

  lemma BodyFacts(pre: string, body: string, rest: string, marker: string)
    requires Lines(pre) && MarkedBody(body, marker) && marker != "" && '\n' !in marker
    ensures var s, end := pre + (body + rest), |pre| + |body|;
            && OccursAt(s, marker, |pre|) && |pre| + |marker| < end <= |s| && s[end - 1] == '\n'
            && forall i :: |pre| < i < end ==> !OccursAt(s, marker, i)
  {
    hide OccursAt, MarkedBody;
    BodyLines(body, marker);
    BodyEnds(pre, body, rest);
    BodyMarked(pre, body, rest, marker);
    OncePerBody(pre, body, rest, marker);
  }

  lemma BodyMarked(pre: string, body: string, rest: string, marker: string)
    requires marker <= body
    ensures OccursAt(pre + (body + rest), marker, |pre|)
  {
    PrefixOccurs(pre, body + rest, marker);
  }

  lemma BodyEnds(pre: string, body: string, rest: string)
    requires body != "" && body[|body| - 1] == '\n'
    ensures var s := pre + (body + rest);
            |pre| + |body| <= |s| && s[|pre| + |body| - 1] == '\n'
  {
  }

  lemma OncePerBody(pre: string, body: string, rest: string, marker: string)
    requires Lines(pre) && MarkedBody(body, marker) && marker != "" && '\n' !in marker
    ensures forall i :: |pre| < i < |pre| + |body| ==> !OccursAt(pre + (body + rest), marker, i)
  {
    hide OccursAt;
    forall i | |pre| < i < |pre| + |body|
      ensures !OccursAt(pre + (body + rest), marker, i)
    {
      OccursSplit(pre, body + rest, marker, i);
      OccursSplit(body, rest, marker, i - |pre|);
    }
  }

  lemma AlertHere(s: string, marker: string, at: nat)
    requires marker != "" && OccursAt(s, marker, at)
    ensures at + |marker| <= |s|
    ensures RuleSplice.AlertStarts(s, marker, at)
         == [at] + RuleSplice.AlertStarts(s, marker, RuleSplice.LineEnd(s, at + |marker|))
  {
  }

  lemma {:induction false} StartsAre(pre: string, bodies: seq<string>, marker: string)
    requires Lines(pre) && MarkedBodies(bodies, marker) && marker != "" && '\n' !in marker
    ensures RuleSplice.AlertStarts(pre + Concat(bodies), marker, |pre|) == Offsets(|pre|, bodies)
    decreases |bodies|
  {
    hide RuleSplice.AlertStarts, OccursAt, MarkedBody, Concat, Offsets;
    if bodies == [] {
      NoBodies(pre, marker);
    } else {
      var body, rest := bodies[0], Concat(bodies[1..]);
      ConcatFront(bodies);
      OffsetsFront(|pre|, bodies);
      BodyLines(body, marker);
      NextBody(pre, body, rest, marker);
      LinesAppend(pre, body);
      StartsAre(pre + body, bodies[1..], marker);
      assert pre + body + rest == pre + (body + rest);
    }
  }

  lemma NoBodies(pre: string, marker: string)
    requires marker != ""
    ensures pre + Concat([]) == pre && Offsets(|pre|, []) == [] && RuleSplice.AlertStarts(pre, marker, |pre|) == []
  {
  }

  lemma BodyLines(body: string, marker: string)
    requires MarkedBody(body, marker)
    ensures Lines(body) && body != "" && body[|body| - 1] == '\n' && marker <= body && |marker| < |body|
  {
    hide OccursAt;
  }

  // ----- The splices -----

  predicate NoneEmpty(bodies: seq<string>) {
    forall i :: 0 <= i < |bodies| ==> bodies[i] != ""
  }

  /** The places just before the last characters of the bodies. */
  function Cuts(at: nat, bodies: seq<string>): (cuts: seq<nat>)
    requires NoneEmpty(bodies)
    ensures |cuts| == |bodies|
  {
    if bodies == [] then []
    else Cuts(at, bodies[..|bodies| - 1]) + [at + |Concat(bodies)| - 1]
  }

  lemma {:induction false} PlacesAt(at: nat, bodies: seq<string>, k: nat)
    requires NoneEmpty(bodies) && k < |bodies|
    ensures Offsets(at, bodies)[k] == at + |Concat(bodies[..k])|
    ensures Cuts(at, bodies)[k] == at + |Concat(bodies[..k + 1])| - 1
    ensures |Concat(bodies[..k])| < |Concat(bodies[..k + 1])| <= |Concat(bodies)|
  {
    var n := |bodies| - 1;
    if k < n {
      PlacesAt(at, bodies[..n], k);
      assert bodies[..n][..k] == bodies[..k] && bodies[..n][..k + 1] == bodies[..k + 1];
    } else {
      assert bodies[..k + 1] == bodies;
    }
  }

  lemma PlaceFacts(at: nat, bodies: seq<string>, k: nat)
    requires NoneEmpty(bodies) && k < |bodies|
    ensures var length, offsets, cuts := at + |Concat(bodies)|, Offsets(at, bodies), Cuts(at, bodies);
            && offsets[k] < length
            && (k + 1 < |bodies| ==> offsets[k] < offsets[k + 1] && cuts[k] == offsets[k + 1] - 1)
            && (k + 1 == |bodies| ==> cuts[k] == length - 1)
  {
    hide Offsets, Cuts, Concat, NoneEmpty;
    PlacesAt(at, bodies, k);
    if k + 1 < |bodies| {
      PlacesAt(at, bodies, k + 1);
    } else {
      assert bodies[..k + 1] == bodies;
    }
  }

  lemma OffsetsAscend(at: nat, bodies: seq<string>)
    requires NoneEmpty(bodies)
    ensures forall k :: 0 <= k < |bodies| ==> Offsets(at, bodies)[k] < at + |Concat(bodies)|
    ensures forall k :: 0 <= k < |bodies| - 1 ==> Offsets(at, bodies)[k] < Offsets(at, bodies)[k + 1]
  {
    hide Offsets, Cuts, Concat, NoneEmpty;
    forall k | 0 <= k < |bodies|
      ensures Offsets(at, bodies)[k] < at + |Concat(bodies)|
      ensures k + 1 < |bodies| ==> Offsets(at, bodies)[k] < Offsets(at, bodies)[k + 1]
    {
      PlaceFacts(at, bodies, k);
    }
  }

  /** The cuts the splicer computes from the offsets. */
  lemma CutsAre(at: nat, bodies: seq<string>)
    requires NoneEmpty(bodies)
    ensures var length, offsets := at + |Concat(bodies)|, Offsets(at, bodies);
            && (forall k :: 0 <= k < |offsets| ==> offsets[k] < length)
            && (forall k :: 0 <= k < |offsets| - 1 ==> offsets[k] < offsets[k + 1])
            && RuleSplice.BlockCuts(length, offsets) == Cuts(at, bodies)
  {
    hide Offsets, Cuts, Concat, NoneEmpty, RuleSplice.BlockCuts;
    OffsetsAscend(at, bodies);
    var length, offsets := at + |Concat(bodies)|, Offsets(at, bodies);
    var cuts, places := RuleSplice.BlockCuts(length, offsets), Cuts(at, bodies);
    forall k | 0 <= k < |bodies|
      ensures cuts[k] == places[k]
    {
      PlaceFacts(at, bodies, k);
      assert cuts[k] == RuleSplice.BlockEnd(length, offsets, k) - 1;
    }
    assert cuts == places;
  }

  /** The spliced file is the head and the labelled bodies. */
  lemma {:induction false} SplicedBodies(head: string, bodies: seq<string>, condition: string)
    requires NoneEmpty(bodies) && forall i :: 0 <= i < |bodies| ==> bodies[i][|bodies[i]| - 1] == '\n'
    ensures var text, cuts := head + Concat(bodies), Cuts(|head|, bodies);
            && RuleSplice.Ascending(cuts, |text|)
            && RuleSplice.Woven(text, cuts, "\n" + condition) == head + Concat(AllLabelled(bodies, condition))
  {
    hide RuleSplice.Woven, RuleSplice.Ascending, Cuts, Concat, Labelled;
    if bodies == [] {
      NothingSpliced(head, condition);
    } else {
      SplicedBodies(head, bodies[..|bodies| - 1], condition);
      OneMoreBody(head, bodies, condition);
    }
  }

  lemma NothingSpliced(head: string, condition: string)
    ensures head + Concat([]) == head && Cuts(|head|, []) == [] && AllLabelled([], condition) == []
    ensures RuleSplice.Ascending([], |head|) && RuleSplice.Woven(head, [], "\n" + condition) == head
  {
  }

  lemma OneMoreBody(head: string, bodies: seq<string>, condition: string)
    requires bodies != [] && NoneEmpty(bodies) && bodies[|bodies| - 1] != ""
    requires bodies[|bodies| - 1][|bodies[|bodies| - 1]| - 1] == '\n'
    requires NoneEmpty(bodies[..|bodies| - 1])
    requires var init := bodies[..|bodies| - 1];
             var before, fewer := head + Concat(init), Cuts(|head|, init);
             && RuleSplice.Ascending(fewer, |before|)
             && RuleSplice.Woven(before, fewer, "\n" + condition) == head + Concat(AllLabelled(init, condition))
    ensures var text, cuts := head + Concat(bodies), Cuts(|head|, bodies);
            && RuleSplice.Ascending(cuts, |text|)
            && RuleSplice.Woven(text, cuts, "\n" + condition) == head + Concat(AllLabelled(bodies, condition))
  {
    hide *;
    var n := |bodies| - 1;
    var body := bodies[n];
    var before, splice := head + Concat(bodies[..n]), "\n" + condition;
    LastBody(head, bodies);
    LastCut(head, bodies);
    SpliceLast(before, body, Cuts(|head|, bodies[..n]), splice);
    LabelledLast(bodies, condition);
    LabelledBody(body, condition);
    Regrouped(head, Concat(AllLabelled(bodies[..n], condition)), Labelled(body, condition));
  }

  lemma LastCut(head: string, bodies: seq<string>)
    requires bodies != [] && NoneEmpty(bodies) && NoneEmpty(bodies[..|bodies| - 1])
    ensures Cuts(|head|, bodies) == Cuts(|head|, bodies[..|bodies| - 1]) + [|head + Concat(bodies)| - 1]
  {
    hide Concat;
  }

  lemma LastBody(head: string, bodies: seq<string>)
    requires bodies != []
    ensures head + Concat(bodies) == (head + Concat(bodies[..|bodies| - 1])) + bodies[|bodies| - 1]
  {
    Regrouped(head, Concat(bodies[..|bodies| - 1]), bodies[|bodies| - 1]);
  }

  lemma Regrouped(a: string, b: string, c: string)
    ensures (a + b) + c == a + (b + c)
  {
  }

  lemma SpliceLast(before: string, body: string, fewer: seq<nat>, splice: string)
    requires body != "" && RuleSplice.Ascending(fewer, |before|) && body[|body| - 1] == '\n'
    ensures var text := before + body;
            && |text| > 0 && RuleSplice.Ascending(fewer + [|text| - 1], |text|)
            && RuleSplice.Woven(text, fewer + [|text| - 1], splice)
               == RuleSplice.Woven(before, fewer, splice) + (body[..|body| - 1] + splice + "\n")
  {
    hide RuleSplice.Woven;
    var text := before + body;
    var c := |text| - 1;
    RuleSplice.WovenStep(text, fewer, c, splice);
    RuleSplice.WovenTail(text, fewer, splice, |before|);
    assert text[..|before|] == before && text[|before|..] == body;
    var woven, t := RuleSplice.Woven(before, fewer, splice), RuleSplice.Woven(text, fewer, splice);
    assert t == woven + body;
    var index := c + |splice| * |fewer|;
    assert index == |t| - 1 == |woven| + (|body| - 1);
    assert t[..index] == woven + body[..|body| - 1] && t[index..] == "\n";
  }

  lemma LabelledBody(body: string, condition: string)
    requires body != "" && body[|body| - 1] == '\n'
    ensures body[..|body| - 1] + ("\n" + condition) + "\n" == Labelled(body, condition)
  {
    assert body == body[..|body| - 1] + "\n";
  }

  lemma LabelledLast(bodies: seq<string>, condition: string)
    requires bodies != []
    ensures var n := |bodies| - 1;
            Concat(AllLabelled(bodies, condition)) == Concat(AllLabelled(bodies[..n], condition)) + Labelled(bodies[n], condition)
  {
    hide Labelled;
    var n := |bodies| - 1;
    assert AllLabelled(bodies, condition)[..n] == AllLabelled(bodies[..n], condition);
  }

  // ----- The labelled blocks are plain again -----

  /** The first part of the generator on a file of a head and alert blocks: the same head, and every block with the
      condition lines at its end. */
  lemma {:induction false} LabelsFile(head: string, bodies: seq<string>, indent: nat, condition: string)
    requires var marker := RuleSplice.Marker(indent);
             Lines(head) && NoStart(head, marker) && MarkedBodies(bodies, marker)
    ensures var text := head + Concat(bodies);
            var cuts := RuleSplice.BlockCuts(|text|, RuleSplice.AlertStarts(text, RuleSplice.Marker(indent), 0));
            && RuleSplice.Ascending(cuts, |text|)
            && RuleSplice.Woven(text, cuts, "\n" + condition) == head + Concat(AllLabelled(bodies, condition))
  {
    hide RuleSplice.AlertStarts, OccursAt, RuleSplice.Woven, RuleSplice.BlockCuts, MarkedBody, Concat, RuleSplice.Marker,
         RuleSplice.Ascending, Cuts, Offsets;
    var marker := RuleSplice.Marker(indent);
    var text := head + Concat(bodies);
    PlainMarker(indent);
    HeadSkipped(head, Concat(bodies), marker);
    StartsAre(head, bodies, marker);
    forall i | 0 <= i < |bodies|
      ensures bodies[i] != "" && bodies[i][|bodies[i]| - 1] == '\n'
    {
      BodyLines(bodies[i], marker);
    }
    CutsAre(|head|, bodies);
    SplicedBodies(head, bodies, condition);
  }

  lemma PlainMarker(indent: nat)
    ensures RuleSplice.Marker(indent) != "" && '\n' !in RuleSplice.Marker(indent)
    ensures LineStart(indent) == RuleSplice.Marker(indent) + " "
  {
  }

  lemma HeadSkipped(head: string, rest: string, marker: string)
    requires Lines(head) && NoStart(head, marker) && marker != "" && '\n' !in marker
    ensures RuleSplice.AlertStarts(head + rest, marker, 0) == RuleSplice.AlertStarts(head + rest, marker, |head|)
  {
    hide RuleSplice.AlertStarts;
    NoStartBefore(head, rest, marker);
    SkipTo(head + rest, marker, 0, |head|);
  }

  /** A labelled block is plain: the lines put into it hold no colon, and the last of them is an end line. */
  lemma LabelledIsPlain(body: string, indent: nat)
    requires MarkedBody(body, RuleSplice.Marker(indent)) && LineStart(indent) <= body
    ensures PlainBody(Labelled(body, RuleSplice.CONDITION), LineStart(indent))
  {
    hide *;
    var start, marker := LineStart(indent), RuleSplice.Marker(indent);
    var added := RuleSplice.CONDITION + "\n";
    PlainMarker(indent);
    BodyLines(body, marker);
    ConditionPlain();
    NoColonNoStart(added, start);
    StartOnce(body, added, marker, start);
    LabelledEnd(body);
    LabelledPlain(body, start);
  }

  lemma {:induction false} LabelledPlain(body: string, start: string)
    requires start <= body && |body| > 0
    requires var labelled := body + (RuleSplice.CONDITION + "\n");
             && Lines(labelled) && (forall i :: 0 < i <= |labelled| ==> !OccursAt(labelled, start, i))
             && var b := LastBreak(labelled, 0, |labelled| - 1);
                b + 2 < |labelled| && !(IF_START <= labelled[b + 1..])
    ensures PlainBody(Labelled(body, RuleSplice.CONDITION), start)
  {
    hide OccursAt, LastBreak;
    assert Labelled(body, RuleSplice.CONDITION) == body + (RuleSplice.CONDITION + "\n");
  }

  lemma StartOnce(body: string, added: string, marker: string, start: string)
    requires MarkedBody(body, marker) && start == marker + " " && '\n' !in start && NoStart(added, start)
    ensures forall i :: 0 < i <= |body + added| ==> !OccursAt(body + added, start, i)
  {
    hide OccursAt;
    forall i | 0 < i <= |body + added|
      ensures !OccursAt(body + added, start, i)
    {
      OccursSplit(body, added, start, i);
      LongerOccurs(body, marker, " ", i);
    }
  }

  lemma ConditionPlain()
    ensures ':' !in RuleSplice.CONDITION + "\n"
  {
    assert ':' !in ".Values.defaultRules" && ':' !in ".additionalRuleLabels";
    assert ':' !in RuleSplice.VALUE;
    assert ':' !in RuleSplice.IF_LINE && ':' !in RuleSplice.LABELS_LINE && ':' !in RuleSplice.END_LINE;
  }

  lemma LabelledEnd(body: string)
    requires body != ""
    ensures var labelled := body + (RuleSplice.CONDITION + "\n");
            && Lines(labelled)
            && var b := LastBreak(labelled, 0, |labelled| - 1);
               b + 2 < |labelled| && !(IF_START <= labelled[b + 1..])
  {
    hide LastBreak;
    var front := body + (RuleSplice.IF_LINE + "\n" + RuleSplice.LABELS_LINE + "\n");
    var labelled := body + (RuleSplice.CONDITION + "\n");
    assert labelled == front + END_LINE;
    assert front[|front| - 1] == '\n';
    assert forall j :: |front| <= j < |labelled| ==> labelled[j] == END_LINE[j - |front|];
    LastBreakAt(labelled, 0, |front| - 1, |labelled| - 1);
    assert labelled[|front|..] == END_LINE;
    assert END_LINE[4] != IF_START[4];
  }

  lemma {:induction false} RenderBare(bodies: seq<string>)
    ensures RenderAll(Bare(bodies)) == Concat(bodies)
    decreases |bodies|
  {
    if bodies != [] {
      RenderBare(bodies[1..]);
      ConcatFront(bodies);
      assert Bare(bodies)[1..] == Bare(bodies[1..]);
      assert RenderBlock(Block([], bodies[0])) == "" + bodies[0] + "" == bodies[0];
    }
  }

  /** Both parts of the generator, one after the other, on a file of a head and alert blocks: the same head, and
      every block with the label lines at its end, wrapped in the conditions of the entries that name it. */
  lemma {:induction false} GeneratedFile(head: string, bodies: seq<string>, indent: nat, table: seq<(string, string)>)
    requires var marker := RuleSplice.Marker(indent);
             Lines(head) && NoStart(head, marker) && MarkedBodies(bodies, marker) && PlainTable(table)
    requires forall i :: 0 <= i < |bodies| ==> LineStart(indent) <= bodies[i]
    ensures var text := head + Concat(bodies);
            var cuts := RuleSplice.BlockCuts(|text|, RuleSplice.AlertStarts(text, RuleSplice.Marker(indent), 0));
            var blocks := Bare(AllLabelled(bodies, RuleSplice.CONDITION));
            && RuleSplice.Ascending(cuts, |text|)
            && PlainBlocks(blocks, LineStart(indent))
            && AllConditions(RuleSplice.Woven(text, cuts, "\n" + RuleSplice.CONDITION), indent, table)
               == head + RenderAll(WrapAll(blocks, LineStart(indent), table))
  {
    hide RuleSplice.AlertStarts, RuleSplice.Woven, RuleSplice.BlockCuts, RuleSplice.Ascending, MarkedBody, Concat,
         RuleSplice.Marker, LineStart, PlainBody, NoStart, Labelled, RenderAll, AllConditions;
    var labelled := AllLabelled(bodies, RuleSplice.CONDITION);
    var blocks := Bare(labelled);
    LabelsFile(head, bodies, indent, RuleSplice.CONDITION);
    forall i | 0 <= i < |blocks|
      ensures PlainBlock(blocks[i], LineStart(indent))
    {
      LabelledIsPlain(bodies[i], indent);
    }
    RenderBare(labelled);
    PlainMarker(indent);
    LongerAbsent(head, RuleSplice.Marker(indent), " ");
    ConditionsNest(head, blocks, indent, table);
  }
}
