/** The `featureGates` annotation: a comma-separated list of `name=bool` items. */
module FeatureGates {
  import opened Text

  const ANNOTATION: string := "featureGates"

  /** Go's `strconv.ParseBool`, with an error read as false. */
  predicate ParseBool(s: string) {
    s in {"1", "t", "T", "TRUE", "true", "True"}
  }

  /** Go's `strconv.FormatBool`. */
  function FormatBool(b: bool): string {
    if b then "true" else "false"
  }

  /** An item of two parts that names the feature and parses as true. */
  predicate TurnsOn(item: string, feature: string) {
    var parts := Split(item, "=");
    |parts| == 2 && parts[0] == feature && ParseBool(parts[1])
  }

  /** Does some item of the annotation turn the feature on? */
  predicate GateOn(annotations: map<string, string>, feature: string) {
    ANNOTATION in annotations && annotations[ANNOTATION] != "" &&
    exists item :: item in Split(annotations[ANNOTATION], ",") && TurnsOn(item, feature)
  }

  /** `IsFeatureGateEnabled`: the first item that turns the feature on decides. */
  method IsFeatureGateEnabled(annotations: map<string, string>, feature: string) returns (on: bool)
    ensures on <==> GateOn(annotations, feature)
  {
    if ANNOTATION in annotations && annotations[ANNOTATION] != "" {
      var items := Split(annotations[ANNOTATION], ",");
      var i := 0;
      while i < |items|
        invariant 0 <= i <= |items|
        invariant forall item :: item in items[..i] ==> !TurnsOn(item, feature)
      {
        var parts := Split(items[i], "=");
        if |parts| == 2 {
          var enabled := ParseBool(parts[1]);
          if parts[0] == feature && enabled {
            assert items[i] in items && TurnsOn(items[i], feature);
            return true;
          }
        }
        i := i + 1;
      }
      assert items[..i] == items;
    }
    return false;
  }

  // ----- Printing a table of gates -----

  /** A name that cannot be mistaken for more than one part of one item. */
  predicate PlainName(name: string) {
    ',' !in name && '=' !in name
  }

  function Item(gate: (string, bool)): string {
    gate.0 + "=" + FormatBool(gate.1)
  }

  function PrintGates(gates: seq<(string, bool)>): string {
    Join(seq(|gates|, i requires 0 <= i < |gates| => Item(gates[i])), ",")
  }

  /** `gates` lists the entries of `table` once each, in some order. */
  ghost predicate Lists(gates: seq<(string, bool)>, table: map<string, bool>) {
    && (forall g :: g in gates ==> g.0 in table && table[g.0] == g.1)
    && (forall name :: name in table ==> (name, table[name]) in gates)
  }

  lemma EqualsBorderFree()
    ensures BorderFree("=") && BorderFree(",")
  {
  }

  lemma PlainItem(name: string, value: string)
    requires PlainName(name) && PlainName(value)
    ensures Split(name + "=" + value, "=") == [name, value] && Split(name + "=" + value, ",") == [name + "=" + value]
  {
    EqualsBorderFree();
    ContainsChar(name, '=');
    ContainsChar(value, '=');
    SplitAt(name, "=", value);
    SplitAbsent(name, "=");
    SplitAbsent(value, "=");
    ContainsChar(name + "=" + value, ',');
    SplitAbsent(name + "=" + value, ",");
  }

  lemma PlainBool(b: bool)
    ensures PlainName(FormatBool(b)) && (ParseBool(FormatBool(b)) <==> b)
  {
    assert FormatBool(b)[0] in {'t', 'f'};
  }

  lemma ItemReads(gate: (string, bool), feature: string)
    requires PlainName(gate.0)
    ensures TurnsOn(Item(gate), feature) <==> gate.0 == feature && gate.1
    ensures ',' !in Item(gate) && Item(gate) != ""
  {
    hide Split, ParseBool, FormatBool;
    PlainBool(gate.1);
    PlainItem(gate.0, FormatBool(gate.1));
  }

  /** The spellings that turn a feature on; every other one leaves it off. */
  lemma {:induction false} SpellingsOfTrue(annotations: map<string, string>, feature: string, value: string)
    requires PlainName(feature) && PlainName(value)
    requires ANNOTATION in annotations && annotations[ANNOTATION] == feature + "=" + value
    ensures GateOn(annotations, feature) <==> value in {"1", "t", "T", "true", "True", "TRUE"}
  {
    hide Split;
    PlainItem(feature, value);
    var item := feature + "=" + value;
    assert item in [item];
  }

  /** However the table of gates is printed, the reader finds exactly its entries that are true. */
  lemma PrintedGatesRead(table: map<string, bool>, gates: seq<(string, bool)>, annotations: map<string, string>, feature: string)
    requires Lists(gates, table)
    requires forall name :: name in table ==> PlainName(name)
    requires ANNOTATION in annotations && annotations[ANNOTATION] == PrintGates(gates)
    ensures GateOn(annotations, feature) <==> feature in table && table[feature]
  {
    hide Item, TurnsOn, PlainName;
    if gates == [] {
      assert PrintGates(gates) == "";
    } else {
      var items := seq(|gates|, i requires 0 <= i < |gates| => Item(gates[i]));
      forall i | 0 <= i < |gates|
        ensures !Contains(items[i], ",") && (TurnsOn(items[i], feature) <==> gates[i].0 == feature && gates[i].1)
      {
        assert gates[i] in gates;
        ItemReads(gates[i], feature);
        ContainsChar(items[i], ',');
      }
      assert items[0] != "" by { assert gates[0] in gates; ItemReads(gates[0], feature); }
      PrintedReads(table, gates, items, feature);
      PrintedSplit(items);
      hide Split, Join, Contains;
      assert annotations[ANNOTATION] == Join(items, ",");
      assert annotations[ANNOTATION] != "" by { JoinNonempty(items); }
    }
  }

  lemma JoinNonempty(items: seq<string>)
    requires items != [] && items[0] != ""
    ensures Join(items, ",") != ""
  {
  }

  lemma PrintedReads(table: map<string, bool>, gates: seq<(string, bool)>, items: seq<string>, feature: string)
    requires Lists(gates, table) && |items| == |gates|
    requires forall i :: 0 <= i < |gates| ==> (TurnsOn(items[i], feature) <==> gates[i].0 == feature && gates[i].1)
    ensures (exists item :: item in items && TurnsOn(item, feature)) <==> feature in table && table[feature]
  {
    hide TurnsOn;
    if feature in table && table[feature] {
      assert (feature, table[feature]) in gates;
      var i :| 0 <= i < |gates| && gates[i] == (feature, table[feature]);
      assert TurnsOn(items[i], feature) && items[i] in items;
    }
    if exists item :: item in items && TurnsOn(item, feature) {
      var item :| item in items && TurnsOn(item, feature);
      var i :| 0 <= i < |items| && items[i] == item;
      assert gates[i] in gates;
    }
  }

  lemma {:induction false} PrintedSplit(items: seq<string>)
    requires items != [] && forall i :: 0 <= i < |items| ==> !Contains(items[i], ",")
    ensures Split(Join(items, ","), ",") == items
  {
    EqualsBorderFree();
    SplitJoin(items, ",");
  }
}
