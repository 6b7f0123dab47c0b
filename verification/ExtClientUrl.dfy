/** The `extClientURL` annotation: the text the kstone provider prints after creating a cluster, and the
    parser that the status check reads it with. */
module ExtClientUrl {
  import opened Options
  import opened Text

  const ARROW: string := "->"

  // ----- Printing (kstone provider) -----

  function Key(name: string, i: nat): string {
    name + "-etcd-" + Decimal(i) + ":2379"
  }

  function Address(name: string, namespace: string, i: nat): string {
    name + "-etcd-" + Decimal(i) + "." + name + "-etcd-headless." + namespace + ".svc.cluster.local:2379"
  }

  function Item(name: string, namespace: string, i: nat): string {
    Key(name, i) + ARROW + Address(name, namespace, i)
  }

  lemma ItemText(name: string, namespace: string, i: nat)
    ensures Item(name, namespace, i) == Key(name, i) + ARROW + Address(name, namespace, i)
  {
  }

  /** The size is a signed number here; a size below one gives no items. */
  function Items(name: string, namespace: string, size: int): (items: seq<string>)
    ensures |items| == if size < 0 then 0 else size
    ensures forall i :: 0 <= i < size ==> items[i] == Item(name, namespace, i)
    decreases if size < 0 then 0 else size
  {
    if size <= 0 then [] else Items(name, namespace, size - 1) + [Item(name, namespace, size - 1)]
  }

  /** The loop of `AfterCreate`: every item but the last is followed by a comma. */
  method PrintExtClientURL(name: string, namespace: string, size: int) returns (url: string)
    ensures url == Join(Items(name, namespace, size), ",")
  {
    hide Key, Address, Item;
    url := "";
    var i := 0;
    while i < size
      invariant if 0 < size then 0 <= i <= size else i == 0
      invariant url == Join(Items(name, namespace, i), ",") + if 0 < i < size then "," else ""
    {
      ghost var before := Items(name, namespace, i);
      ItemText(name, namespace, i);
      if i > 0 { JoinAppend(before, Item(name, namespace, i), ","); }
      if i < size - 1 {
        url := url + Key(name, i) + ARROW + Address(name, namespace, i) + ",";
      } else {
        url := url + Key(name, i) + ARROW + Address(name, namespace, i);
      }
      i := i + 1;
    }
  }

  // ----- Parsing (status check) -----

  predicate WellFormed(item: string) {
    |Split(item, ARROW)| == 2
  }

  /** The pairs of well-formed items; a later item overrides an earlier one with the same key. */
  function Table(items: seq<string>): map<string, string>
    requires forall i :: 0 <= i < |items| ==> WellFormed(items[i])
  {
    if items == [] then map[]
    else
      var last := items[|items| - 1];
      assert WellFormed(items[|items| - 1]);
      var pair := Split(last, ARROW);
      Table(items[..|items| - 1])[pair[0] := pair[1]]
  }

  /** How many items come before the first that is not of the form `key->address`. */
  function LeadingWellFormed(items: seq<string>): (n: nat)
    ensures n <= |items| && (n < |items| ==> !WellFormed(items[n]))
    ensures forall i :: 0 <= i < n ==> WellFormed(items[i])
  {
    if items == [] || !WellFormed(items[0]) then 0
    else
      LeadingWellFormed(items[1..]) + 1
  }

  lemma TableNothing()
    ensures Table([]) == map[]
  {
  }

  lemma TableStep(items: seq<string>, i: nat)
    requires i < |items| && forall j :: 0 <= j <= i ==> WellFormed(items[j])
    ensures Table(items[..i + 1]) == Table(items[..i])[Split(items[i], ARROW)[0] := Split(items[i], ARROW)[1]]
  {
    hide Split;
    assert items[..i + 1][..i] == items[..i];
  }

  /** `populateExtensionCientURLMap`: the pairs up to the first item that is not of the form `key->address`,
      and that item as the error. */
  method PopulateExtensionClientURLMap(text: string) returns (urls: map<string, string>, err: Option<string>)
    ensures text == "" ==> urls == map[] && err == None
    ensures text != "" ==>
              var items := Split(text, ",");
              var good := LeadingWellFormed(items);
              urls == Table(items[..good]) && err == if good < |items| then Some(items[good]) else None
    ensures err == None ==> Parsed(text) == Some(urls)
    ensures err.Some? ==> Parsed(text) == None
  {
    hide Table, Split;
    urls, err := map[], None;
    TableNothing();
    if text == "" { return; }
    var items := Split(text, ",");
    var i := 0;
    while i < |items|
      invariant 0 <= i <= LeadingWellFormed(items)
      invariant urls == Table(items[..i])
    {
      var eps := Split(items[i], ARROW);
      if |eps| == 2 {
        TableStep(items, i);
        urls := urls[eps[0] := eps[1]];
      } else {
        return urls, Some(items[i]);
      }
      i := i + 1;
    }
    assert items[..i] == items;
  }

  /** The table of a text all of whose items are well formed. */
  function Parsed(text: string): Option<map<string, string>>
  {
    if text == "" then Some(map[])
    else if LeadingWellFormed(Split(text, ",")) == |Split(text, ",")| then Some(Table(Split(text, ",")))
    else None
  }

  // ----- The round trip -----

  /** Free of both separators of the text. */
  predicate Clean(s: string) {
    ',' !in s && !Contains(s, ARROW)
  }

  /** The table the printer means: one entry per member, all keys and all addresses distinct. */
  ghost predicate Means(urls: map<string, string>, name: string, namespace: string, size: nat)
  {
    && |urls| == size
    && OnlyKeys(urls, name, size)
    && AllEntries(urls, name, namespace, size)
    && OneToOne(urls)
  }

  ghost predicate OneToOne(urls: map<string, string>) {
    forall k, l :: k in urls && l in urls && urls[k] == urls[l] ==> k == l
  }

  /** The host that a member announces, continued in the headless domain of the cluster, begins its address. */
  lemma OwnHost(name: string, namespace: string, i: nat)
    ensures name + "-etcd-" + Decimal(i) + "." <= Address(name, namespace, i)
  {
  }

  lemma FirstDot(a: string, b: string, restA: string, restB: string)
    requires '.' !in a && '.' !in b && a + "." + restA == b + "." + restB
    ensures a == b
  {
    var s := a + "." + restA;
    assert s[|a|] == '.' && s[|b|] == '.';
    assert forall i :: 0 <= i < |a| ==> s[i] == a[i];
    assert forall i :: 0 <= i < |b| ==> s[i] == b[i];
    assert a == s[..|a|] && b == s[..|b|];
  }

  /** No two members share an address. */
  lemma {:induction false} AddressInjective(name: string, namespace: string, i: nat, j: nat)
    requires Address(name, namespace, i) == Address(name, namespace, j)
    ensures i == j
  {
    var pre := name + "-etcd-";
    OwnHost(name, namespace, i);
    OwnHost(name, namespace, j);
    var a, b := Address(name, namespace, i), Address(name, namespace, j);
    DecimalAvoids(i, '.');
    DecimalAvoids(j, '.');
    SamePrefixed(pre, Decimal(i), Decimal(j), a);
    DecimalInjective(i, j);
  }

  lemma SamePrefixed(pre: string, a: string, b: string, whole: string)
    requires pre + a + "." <= whole && pre + b + "." <= whole && '.' !in a && '.' !in b
    ensures a == b
  {
    var rest := whole[|pre|..];
    assert rest[..|a| + 1] == a + "." && rest[..|b| + 1] == b + ".";
    assert rest == a + "." + rest[|a| + 1..] && rest == b + "." + rest[|b| + 1..];
    FirstDot(a, b, rest[|a| + 1..], rest[|b| + 1..]);
  }

  lemma ArrowBorderFree()
    ensures BorderFree(ARROW) && BorderFree(",")
  {
    forall k | 0 < k < |ARROW| ensures ARROW[..k] != ARROW[|ARROW| - k..] {
      assert ARROW[..k][0] == '-' && ARROW[|ARROW| - k..][0] == '>';
    }
  }

  /** A text without the arrow stays so when a text without it and without a leading `>` follows. */
  lemma {:induction false} NoArrow(a: string, b: string)
    requires !Contains(a, ARROW) && !Contains(b, ARROW) && !(a != "" && a[|a| - 1] == '-' && b != "" && b[0] == '>')
    ensures !Contains(a + b, ARROW)
  {
    if a == "" {
      assert a + b == b;
    } else {
      NoArrow(a[1..], b);
      assert (a + b)[1..] == a[1..] + b;
      ArrowAt(a + b);
      ArrowAt(a);
    }
  }

  lemma ArrowAt(s: string)
    ensures ARROW <= s <==> |s| >= 2 && s[0] == '-' && s[1] == '>'
  {
    if ARROW <= s { assert s[0] == ARROW[0] && s[1] == ARROW[1]; }
  }

  lemma {:induction false} FixedNoArrow(s: string)
    requires '>' !in s
    ensures !Contains(s, ARROW)
  {
    assert ARROW[1] == '>';
    ContainsNeedsAll(s, ARROW, '>');
  }

  lemma KeyClean(name: string, i: nat)
    requires Clean(name)
    ensures Clean(Key(name, i))
  {
    var tail := "-etcd-" + Decimal(i) + ":2379";
    DecimalAvoids(i, '>');
    DecimalAvoids(i, ',');
    FixedNoArrow(tail);
    NoArrow(name, tail);
    assert Key(name, i) == name + tail;
  }

  lemma AddressClean(name: string, namespace: string, i: nat)
    requires Clean(name) && Clean(namespace)
    ensures Clean(Address(name, namespace, i))
  {
    DecimalAvoids(i, '>');
    DecimalAvoids(i, ',');
    CleanPattern(name, "-etcd-", Decimal(i), ".", "-etcd-headless.", namespace, ".svc.cluster.local:2379");
  }

  lemma CleanPattern(name: string, a: string, digits: string, b: string, c: string, namespace: string, d: string)
    requires Clean(name) && Clean(namespace)
    requires forall s :: s in {a, digits, b, c, d} ==> ',' !in s && '>' !in s
    requires b != "" && b[|b| - 1] != '-' && c != "" && c[|c| - 1] != '-'
    ensures Clean(name + a + digits + b + name + c + namespace + d)
  {
    FixedNoArrow(a);
    FixedNoArrow(digits);
    FixedNoArrow(b);
    FixedNoArrow(c);
    FixedNoArrow(d);
    CleanJoin(name, a);
    CleanJoin(name + a, digits);
    CleanJoin(name + a + digits, b);
    CleanJoin(name + a + digits + b, name);
    CleanJoin(name + a + digits + b + name, c);
    CleanJoin(name + a + digits + b + name + c, namespace);
    CleanJoin(name + a + digits + b + name + c + namespace, d);
  }

  lemma CleanJoin(a: string, b: string)
    requires Clean(a) && Clean(b) && !(a != "" && a[|a| - 1] == '-' && b != "" && b[0] == '>')
    ensures Clean(a + b)
  {
    NoArrow(a, b);
  }

  lemma ItemSplits(name: string, namespace: string, i: nat)
    requires Clean(name) && Clean(namespace)
    ensures Split(Item(name, namespace, i), ARROW) == [Key(name, i), Address(name, namespace, i)]
    ensures !Contains(Item(name, namespace, i), ",")
  {
    ArrowBorderFree();
    KeyClean(name, i);
    AddressClean(name, namespace, i);
    var key, address := Key(name, i), Address(name, namespace, i);
    SplitAt(key, ARROW, address);
    SplitAbsent(key, ARROW);
    SplitAbsent(address, ARROW);
    ContainsChar(Item(name, namespace, i), ',');
    assert forall c :: c in ARROW ==> c != ',';
  }

  lemma KeyInjective(name: string, i: nat, j: nat)
    requires Key(name, i) == Key(name, j)
    ensures i == j
  {
    var pre := name + "-etcd-";
    var ki, kj := Key(name, i), Key(name, j);
    assert ki == pre + Decimal(i) + ":2379" && kj == pre + Decimal(j) + ":2379";
    assert ki[|pre|..|ki| - 5] == Decimal(i) && kj[|pre|..|kj| - 5] == Decimal(j);
    DecimalInjective(i, j);
  }

  lemma KeyNew(name: string, last: nat)
    ensures forall i: nat :: i < last ==> Key(name, i) != Key(name, last)
  {
    hide Key;
    forall i: nat | i < last ensures Key(name, i) != Key(name, last) {
      if Key(name, i) == Key(name, last) { KeyInjective(name, i, last); }
    }
  }

  ghost predicate OnlyKeys(urls: map<string, string>, name: string, size: nat) {
    forall k :: k in urls ==> exists i: nat :: i < size && k == Key(name, i)
  }

  lemma OnlyKeysStep(urls: map<string, string>, name: string, address: string, last: nat)
    requires OnlyKeys(urls, name, last)
    ensures OnlyKeys(urls[Key(name, last) := address], name, last + 1)
  {
    hide Key;
    var more := urls[Key(name, last) := address];
    forall k | k in more ensures exists i: nat :: i < last + 1 && k == Key(name, i) {
      if k != Key(name, last) {
        var i: nat :| i < last && k == Key(name, i);
      }
    }
  }

  lemma MapGrows(urls: map<string, string>, k: string, v: string)
    requires k !in urls
    ensures |urls[k := v]| == |urls| + 1
  {
    assert urls[k := v].Keys == urls.Keys + {k};
    assert |urls.Keys| == |urls| && |urls[k := v].Keys| == |urls[k := v]|;
  }

  /** Every member's key leads to its address. */
  ghost predicate AllEntries(urls: map<string, string>, name: string, namespace: string, size: nat) {
    forall i: nat :: i < size ==> Key(name, i) in urls && urls[Key(name, i)] == Address(name, namespace, i)
  }

  lemma EntriesStep(urls: map<string, string>, name: string, namespace: string, last: nat)
    requires AllEntries(urls, name, namespace, last)
    ensures AllEntries(urls[Key(name, last) := Address(name, namespace, last)], name, namespace, last + 1)
  {
    hide Key, Address;
    KeyNew(name, last);
  }

  lemma OneToOneStep(urls: map<string, string>, name: string, namespace: string, last: nat)
    requires Means(urls, name, namespace, last)
    ensures OneToOne(urls[Key(name, last) := Address(name, namespace, last)])
  {
    hide Key, Address;
    var address := Address(name, namespace, last);
    forall k | k in urls ensures urls[k] != address {
      var i: nat :| i < last && k == Key(name, i);
      if Address(name, namespace, i) == address { AddressInjective(name, namespace, i, last); }
    }
  }

  lemma MeansStep(urls: map<string, string>, name: string, namespace: string, last: nat)
    requires Means(urls, name, namespace, last)
    ensures Means(urls[Key(name, last) := Address(name, namespace, last)], name, namespace, last + 1)
  {
    hide Key, Address, OnlyKeys, AllEntries, OneToOne;
    OneToOneStep(urls, name, namespace, last);
    KeyAbsent(urls, name, last);
    MapGrows(urls, Key(name, last), Address(name, namespace, last));
    OnlyKeysStep(urls, name, Address(name, namespace, last), last);
    EntriesStep(urls, name, namespace, last);
  }

  lemma KeyAbsent(urls: map<string, string>, name: string, last: nat)
    requires OnlyKeys(urls, name, last)
    ensures Key(name, last) !in urls
  {
    hide Key;
    KeyNew(name, last);
  }

  lemma MeansNothing(name: string, namespace: string)
    ensures Means(map[], name, namespace, 0)
  {
  }

  lemma {:induction false} TableOfItems(name: string, namespace: string, size: nat)
    requires Clean(name) && Clean(namespace)
    ensures forall i :: 0 <= i < size ==> WellFormed(Items(name, namespace, size)[i]) && !Contains(Items(name, namespace, size)[i], ",")
    ensures Means(Table(Items(name, namespace, size)), name, namespace, size)
  {
    hide Key, Address, Item, Contains, Clean, Means;
    if size == 0 {
      MeansNothing(name, namespace);
    } else {
      var last := size - 1;
      TableOfItems(name, namespace, last);
      ItemSplits(name, namespace, last);
      var items, fewer := Items(name, namespace, size), Items(name, namespace, last);
      assert items[..last] == fewer;
      MeansStep(Table(fewer), name, namespace, last);
    }
  }

  /** Of several items with one key the last one counts. */
  lemma {:induction false} LastItemWins(items: seq<string>, k: string, i: nat)
    requires forall j :: 0 <= j < |items| ==> WellFormed(items[j])
    requires i < |items| && Split(items[i], ARROW)[0] == k
    requires forall j :: i < j < |items| ==> Split(items[j], ARROW)[0] != k
    ensures k in Table(items) && Table(items)[k] == Split(items[i], ARROW)[1]
  {
    hide Split;
    assert WellFormed(items[i]);
    var n := |items| - 1;
    if i < n {
      assert WellFormed(items[n]);
      LastItemWins(items[..n], k, i);
    }
  }

  predicate PartsOf(item: string, k: string, v: string) {
    k in Split(item, ARROW) && v in Split(item, ARROW)
  }

  lemma {:induction false} TableParts(items: seq<string>, k: string) returns (item: string)
    requires forall i :: 0 <= i < |items| ==> WellFormed(items[i])
    requires k in Table(items)
    ensures item in items && PartsOf(item, k, Table(items)[k])
  {
    var last := items[|items| - 1];
    var fewer := items[..|items| - 1];
    var pair := Split(last, ARROW);
    assert WellFormed(items[|items| - 1]);
    if k == pair[0] {
      item := last;
      assert Table(items)[k] == pair[1];
    } else {
      item := TableParts(fewer, k);
    }
  }

  /** Whatever the text, no separator is left in a key or an address of the table. */
  lemma ParsedClean(text: string, k: string)
    requires Parsed(text).Some? && k in Parsed(text).value
    ensures Clean(k) && Clean(Parsed(text).value[k])
  {
    var items := Split(text, ",");
    var item := TableParts(items, k);
    SplitPartsClean(text, ",");
    SplitPartsClean(item, ARROW);
    ContainsChar(item, ',');
    SplitPartsFrom(item, ARROW, ',');
  }

  /** Parsing the printed annotation gives back one entry per member, exactly when neither the name nor the
      namespace holds a separator. */
  lemma {:induction false} RoundTrip(name: string, namespace: string, size: nat)
    requires size >= 1
    ensures var parsed := Parsed(Join(Items(name, namespace, size), ","));
      parsed.Some? && Means(parsed.value, name, namespace, size) <==> Clean(name) && Clean(namespace)
  {
    if Clean(name) && Clean(namespace) {
      CleanParses(name, namespace, size);
    } else {
      UncleanFails(name, namespace, size);
    }
  }

  lemma {:induction false} CleanParses(name: string, namespace: string, size: nat)
    requires size >= 1 && Clean(name) && Clean(namespace)
    ensures var parsed := Parsed(Join(Items(name, namespace, size), ","));
      parsed.Some? && Means(parsed.value, name, namespace, size)
  {
    hide *;
    TableOfItems(name, namespace, size);
    TextNonempty(name, namespace, size);
    ParsedJoin(Items(name, namespace, size));
  }

  /** Joined well-formed items parse to their table. */
  lemma {:induction false} ParsedJoin(items: seq<string>)
    requires |items| >= 1 && Join(items, ",") != ""
    requires forall i :: 0 <= i < |items| ==> WellFormed(items[i]) && !Contains(items[i], ",")
    ensures Parsed(Join(items, ",")) == Some(Table(items))
  {
    hide WellFormed, Table, Join, Contains;
    ArrowBorderFree();
    PartsClean(items);
    SplitJoin(items, ",");
    var good := LeadingWellFormed(items);
    assert good == |items|;
  }

  lemma PartsClean(items: seq<string>)
    requires forall i :: 0 <= i < |items| ==> !Contains(items[i], ",")
    ensures forall p :: p in items ==> !Contains(p, ",")
  {
  }

  lemma UncleanFails(name: string, namespace: string, size: nat)
    requires size >= 1 && !(Clean(name) && Clean(namespace))
    ensures var parsed := Parsed(Join(Items(name, namespace, size), ","));
      !(parsed.Some? && Means(parsed.value, name, namespace, size))
  {
    var text := Join(Items(name, namespace, size), ",");
    var key, address := Key(name, 0), Address(name, namespace, 0);
    Embedded(name, key, "", "-etcd-" + Decimal(0) + ":2379");
    var pre := name + "-etcd-" + Decimal(0) + "." + name + "-etcd-headless.";
    Embedded(namespace, address, pre, ".svc.cluster.local:2379");
    if Parsed(text).Some? && key in Parsed(text).value { ParsedClean(text, key); }
  }

  lemma TextNonempty(name: string, namespace: string, size: nat)
    requires size >= 1
    ensures Join(Items(name, namespace, size), ",") != ""
  {
    hide Key, Address;
    var items := Items(name, namespace, size);
    assert items[0] == Item(name, namespace, 0);
    assert |items[0]| >= |ARROW|;
  }

  lemma Embedded(s: string, whole: string, pre: string, post: string)
    requires whole == pre + s + post
    ensures Clean(whole) ==> Clean(s)
  {
    if Contains(s, ARROW) { ContainsExtend(pre, s, post, ARROW); }
    if ',' in s {
      var i :| 0 <= i < |s| && s[i] == ',';
      assert whole[|pre| + i] == ',';
    }
  }

  // ----- Where the status check talks to a member -----

  /** The address the status check uses for a member that announces `clientURL`. */
  function ExtensionURL(clientURL: string, text: string, urls: map<string, string>): string {
    if text == "" then clientURL
    else if "https://" <= clientURL then
      var ep := TrimPrefix(clientURL, "https://");
      if ep in urls then "https://" + urls[ep] else clientURL
    else
      var ep := TrimPrefix(clientURL, "http://");
      if ep in urls then "http://" + urls[ep] else clientURL
  }

  /** With the annotation written for `size` members, members 0 to `size - 1` are reached through their own
      headless addresses under the scheme they announce, and a member that a later resize added is not
      translated: the annotation is written after creation only. */
  lemma {:induction false} MemberAddress(name: string, namespace: string, size: nat, i: nat, scheme: string)
    requires size >= 1 && Clean(name) && Clean(namespace) && scheme in {"http://", "https://"}
    ensures var text := Join(Items(name, namespace, size), ",");
      var host := name + "-etcd-" + Decimal(i);
      Parsed(text).Some? &&
      ExtensionURL(scheme + (host + ":2379"), text, Parsed(text).value) ==
        scheme + (host + if i < size then "." + name + "-etcd-headless." + namespace + ".svc.cluster.local:2379" else ":2379")
  {
    hide Items, Join, Parsed, ExtensionURL;
    Reached(name, namespace, size, i, scheme);
    Spelled(name, namespace, i);
  }

  lemma Spelled(name: string, namespace: string, i: nat)
    ensures var host := name + "-etcd-" + Decimal(i);
      && Key(name, i) == host + ":2379"
      && Address(name, namespace, i) == host + ("." + name + "-etcd-headless." + namespace + ".svc.cluster.local:2379")
  {
  }

  lemma {:induction false} Reached(name: string, namespace: string, size: nat, i: nat, scheme: string)
    requires size >= 1 && Clean(name) && Clean(namespace) && scheme in {"http://", "https://"}
    ensures var text := Join(Items(name, namespace, size), ",");
      Parsed(text).Some? &&
      ExtensionURL(scheme + Key(name, i), text, Parsed(text).value) ==
        if i < size then scheme + Address(name, namespace, i) else scheme + Key(name, i)
  {
    hide Key, Address, Items, Join, Parsed, ExtensionURL;
    var text := Join(Items(name, namespace, size), ",");
    RoundTrip(name, namespace, size);
    TextNonempty(name, namespace, size);
    Translated(scheme, Key(name, i), text, Parsed(text).value);
    if i >= size && Key(name, i) in Parsed(text).value {
      var j: nat :| j < size && Key(name, i) == Key(name, j);
      KeyInjective(name, i, j);
    }
  }

  lemma Translated(scheme: string, ep: string, text: string, urls: map<string, string>)
    requires scheme in {"http://", "https://"} && text != ""
    ensures ExtensionURL(scheme + ep, text, urls) == scheme + if ep in urls then urls[ep] else ep
  {
    var url := scheme + ep;
    assert url[|scheme|..] == ep;
    if scheme == "https://" {
      assert "https://" <= url;
    } else {
      assert "http://" <= url;
      assert url[4] == ':' && "https://"[4] == 's';
    }
  }
}
