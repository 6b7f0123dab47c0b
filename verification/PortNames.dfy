/** The monitoring objects of a cluster: one port name per member, derived from its endpoint, shared by the
    service, the endpoints and the service monitor, and turned back into the endpoint by a relabel rule. */
module PortNames {
  import opened Options
  import opened Text

  /** What the monitoring needs of a member. */
  datatype Target = Target(endpoint: string, extensionUrl: string)

  /** An object, the error of an unreadable port, or the panic of an address without a port. */
  datatype Built<T> = Built(value: T) | BadPort | Panicked

  datatype ServicePort = ServicePort(name: string, port: int, targetPort: int)
  datatype Subset = Subset(ip: string, name: string, port: int)

  const FIRST_PORT := 2379

  // ----- Names and numbers -----

  function PortName(endpoint: string): string {
    ReplaceAll(endpoint, ".", "-")
  }

  /** Go's conversion to `int32`. */
  function Int32(n: int): int {
    (n + 0x8000_0000) % 0x1_0000_0000 - 0x8000_0000
  }

  function DigitsValue(s: string): Option<nat> {
    if s == "" then None
    else
      var c := s[|s| - 1];
      if !('0' <= c <= '9') then None
      else if |s| == 1 then Some(c as int - '0' as int)
      else match DigitsValue(s[..|s| - 1])
           case None => None
           case Some(n) => Some(10 * n + (c as int - '0' as int))
  }

  /** Go's `strconv.Atoi`: the value, which an overflow leaves at the nearest bound, and whether it is good. */
  function Atoi(s: string): (int, bool) {
    var negative := s != "" && s[0] == '-';
    match DigitsValue(if s != "" && s[0] in {'+', '-'} then s[1..] else s)
    case None => (0, false)
    case Some(n) =>
      var v := if negative then 0 - (n as int) else n as int;
      if v < -0x8000_0000_0000_0000 then (-0x8000_0000_0000_0000, false)
      else if v >= 0x8000_0000_0000_0000 then (0x7fff_ffff_ffff_ffff, false)
      else (v, true)
  }

  lemma DigitValue(k: nat)
    requires k < 10
    ensures '0' <= DIGITS[k] <= '9' && DIGITS[k] as int - '0' as int == k
  {
  }

  /** What is printed is read back. */
  lemma {:induction false} PrintedIsRead(n: nat)
    ensures DigitsValue(Decimal(n)) == Some(n)
  {
    DigitValue(n % 10);
    var d := Decimal(n);
    if n < 10 {
      assert d == [DIGITS[n]];
    } else {
      PrintedIsRead(n / 10);
      assert d[..|d| - 1] == Decimal(n / 10);
    }
  }

  lemma DecimalStart(n: nat)
    ensures Decimal(n)[0] !in {'+', '-'}
  {
    assert Decimal(n)[0] in DIGITS;
  }

  /** `Atoi` undoes the printing of a number, with a sign or without one, as far as it fits 64 bits; beyond that it
      gives the nearest number that fits and says so. */
  lemma {:induction false} AtoiOfPrinted(n: nat)
    ensures Atoi(Decimal(n)).0 == (if n < 0x8000_0000_0000_0000 then n else 0x7fff_ffff_ffff_ffff)
    ensures Atoi(Decimal(n)).1 <==> n < 0x8000_0000_0000_0000
    ensures Atoi("+" + Decimal(n)) == Atoi(Decimal(n))
    ensures Atoi("-" + Decimal(n)).0 == 0 - (if n <= 0x8000_0000_0000_0000 then n else 0x8000_0000_0000_0000)
    ensures Atoi("-" + Decimal(n)).1 <==> n <= 0x8000_0000_0000_0000
  {
    hide *;
    PrintedIsRead(n);
    DecimalStart(n);
    AtoiOfDigits(Decimal(n), n);
  }

  lemma AtoiOfDigits(d: string, n: nat)
    requires DigitsValue(d) == Some(n) && d != "" && d[0] !in {'+', '-'}
    ensures Atoi(d).0 == (if n < 0x8000_0000_0000_0000 then n else 0x7fff_ffff_ffff_ffff)
    ensures Atoi(d).1 <==> n < 0x8000_0000_0000_0000
    ensures Atoi("+" + d) == Atoi(d)
    ensures Atoi("-" + d).0 == 0 - (if n <= 0x8000_0000_0000_0000 then n else 0x8000_0000_0000_0000)
    ensures Atoi("-" + d).1 <==> n <= 0x8000_0000_0000_0000
  {
    hide DigitsValue;
    assert ("+" + d)[1..] == d && ("-" + d)[1..] == d;
  }

  /** The text between the colons of `scheme://host:port`. */
  function UrlParts(t: Target): seq<string> {
    Split(t.extensionUrl, ":")
  }

  predicate HasPort(t: Target) {
    |UrlParts(t)| > 2
  }

  function NameOf(t: Target): string {
    PortName(t.endpoint)
  }

  // ----- The names without adjacent repetitions -----

  function Collapse(names: seq<string>): (kept: seq<string>)
    ensures names != [] ==> kept != [] && kept[|kept| - 1] == names[|names| - 1]
    ensures |kept| <= |names|
  {
    if names == [] then []
    else
      var last := |names| - 1;
      if last > 0 && names[last - 1] == names[last] then Collapse(names[..last])
      else Collapse(names[..last]) + [names[last]]
  }

  function Names(targets: seq<Target>): (names: seq<string>)
    ensures |names| == |targets| && forall i :: 0 <= i < |targets| ==> names[i] == NameOf(targets[i])
  {
    seq(|targets|, i requires 0 <= i < |targets| => NameOf(targets[i]))
  }

  /** The members whose name differs from that of the member before. */
  function Leaders(targets: seq<Target>): (leaders: seq<Target>)
    ensures targets != [] ==> leaders != [] && NameOf(leaders[|leaders| - 1]) == NameOf(targets[|targets| - 1])
  {
    if targets == [] then []
    else
      var last := |targets| - 1;
      if last > 0 && NameOf(targets[last - 1]) == NameOf(targets[last]) then Leaders(targets[..last])
      else Leaders(targets[..last]) + [targets[last]]
  }

  lemma {:induction false} LeadersNames(targets: seq<Target>)
    ensures Names(Leaders(targets)) == Collapse(Names(targets))
  {
    hide NameOf;
    if targets != [] {
      var last := |targets| - 1;
      LeadersNames(targets[..last]);
      assert Names(targets)[..last] == Names(targets[..last]);
    }
  }

  // ----- The objects as they are built -----

  function PortValue(t: Target): int {
    if HasPort(t) then Int32(Atoi(UrlParts(t)[2]).0) else 0
  }

  lemma ThreeParts(a: string, b: string, c: string)
    requires ':' !in a && ':' !in b && ':' !in c
    ensures Split(a + ":" + (b + ":" + c), ":") == [a, b, c]
  {
    hide Split;
    ColonBorderFree();
    ContainsChar(a, ':');
    ContainsChar(b, ':');
    ContainsChar(c, ':');
    SplitAbsent(a, ":");
    SplitAbsent(b, ":");
    SplitAbsent(c, ":");
    SplitAt(b, ":", c);
    SplitAt(a, ":", b + ":" + c);
  }

  lemma ColonBorderFree()
    ensures BorderFree(":")
  {
  }

  /** The objects get the host and the port of a member's address. */
  lemma {:induction false} PortOfAddress(t: Target, scheme: string, host: string, port: nat)
    requires ':' !in scheme && ':' !in host && port < 0x8000_0000
    requires t.extensionUrl == scheme + ":" + ("//" + host + ":" + Decimal(port))
    ensures HasPort(t) && PortValue(t) == port
    ensures TrimPrefix(UrlParts(t)[1], "//") == host && Atoi(UrlParts(t)[2]).0 == port && Atoi(UrlParts(t)[2]).1
  {
    hide Split, Atoi;
    DecimalAvoids(port, ':');
    ThreeParts(scheme, "//" + host, Decimal(port));
    AtoiOfPrinted(port);
    assert ("//" + host)[2..] == host;
  }

  /** The service ports for the members: one for each leader, numbered without gaps. */
  predicate PortsFor(ports: seq<ServicePort>, targets: seq<Target>) {
    && |ports| == |Leaders(targets)|
    && forall k :: 0 <= k < |ports| ==>
         ports[k] == ServicePort(NameOf(Leaders(targets)[k]), Int32(FIRST_PORT + k), PortValue(Leaders(targets)[k]))
  }

  /** `initEtcdSvc`. */
  method InitEtcdSvc(targets: seq<Target>) returns (built: Built<seq<ServicePort>>)
    ensures built == Panicked <==> exists i :: 0 <= i < |targets| && !HasPort(targets[i])
    ensures built != BadPort
    ensures built.Built? ==> PortsFor(built.value, targets)
  {
    hide PortsFor, PortName, Atoi, Int32, Split;
    NoPorts();
    var ports: seq<ServicePort> := [];
    var count := 0;
    var i := 0;
    while i < |targets|
      invariant 0 <= i <= |targets|
      invariant forall j :: 0 <= j < i ==> HasPort(targets[j])
      invariant count == |ports|
      invariant PortsFor(ports, targets[..i])
    {
      var t := targets[i];
      var addr := Split(t.extensionUrl, ":");
      if |addr| <= 2 {
        assert !HasPort(targets[i]);
        return Panicked;
      }
      var (port, _) := Atoi(addr[2]);
      var name := PortName(t.endpoint);
      assert targets[..i + 1] == targets[..i] + [t];
      PortsStep(ports, targets[..i], t);
      i := i + 1;
      if |ports| > 0 && name == ports[|ports| - 1].name {
        continue;
      }
      ports := ports + [ServicePort(name, Int32(FIRST_PORT + count), Int32(port))];
      count := count + 1;
    }
    assert targets[..i] == targets;
    return Built(ports);
  }

  lemma NoPorts()
    ensures PortsFor([], [])
  {
  }

  lemma PortsStep(ports: seq<ServicePort>, targets: seq<Target>, t: Target)
    requires PortsFor(ports, targets)
    ensures if |ports| > 0 && NameOf(t) == ports[|ports| - 1].name then PortsFor(ports, targets + [t])
            else PortsFor(ports + [ServicePort(NameOf(t), Int32(FIRST_PORT + |ports|), PortValue(t))], targets + [t])
  {
    hide Int32, NameOf, PortValue;
    var more := targets + [t];
    assert more[..|targets|] == targets;
  }

  /** `initEtcdEndpoint`: one subset per member of an imported cluster, none for others. */
  method InitEtcdEndpoint(imported: bool, targets: seq<Target>) returns (built: Built<seq<Subset>>)
    ensures !imported ==> built == Built([])
    ensures imported ==> (built.Built? <==> forall i :: 0 <= i < |targets| ==>
                                              HasPort(targets[i]) && Atoi(UrlParts(targets[i])[2]).1)
    ensures imported && built.Built? ==>
              && |built.value| == |targets|
              && forall i :: 0 <= i < |targets| ==>
                   HasPort(targets[i]) &&
                   built.value[i] == Subset(TrimPrefix(UrlParts(targets[i])[1], "//"), NameOf(targets[i]),
                                            Int32(Atoi(UrlParts(targets[i])[2]).0))
  {
    var subsets: seq<Subset> := [];
    if imported {
      var i := 0;
      while i < |targets|
        invariant 0 <= i <= |targets| && |subsets| == i
        invariant forall j :: 0 <= j < i ==>
                    HasPort(targets[j]) && Atoi(UrlParts(targets[j])[2]).1 &&
                    subsets[j] == Subset(TrimPrefix(UrlParts(targets[j])[1], "//"), NameOf(targets[j]),
                                         Int32(Atoi(UrlParts(targets[j])[2]).0))
      {
        var addr := Split(targets[i].extensionUrl, ":");
        if |addr| <= 2 {
          return Panicked;
        }
        var (port, good) := Atoi(addr[2]);
        if !good {
          return BadPort;
        }
        subsets := subsets + [Subset(TrimPrefix(addr[1], "//"), PortName(targets[i].endpoint), Int32(port))];
        i := i + 1;
      }
    }
    return Built(subsets);
  }

  /** The endpoint list of `initEtcdServiceMonitor`: one scraped port per member. */
  method InitEtcdServiceMonitor(targets: seq<Target>) returns (ports: seq<string>)
    ensures ports == Names(targets)
  {
    ports := [];
    var i := 0;
    while i < |targets|
      invariant 0 <= i <= |targets|
      invariant ports == Names(targets[..i])
    {
      ports := ports + [PortName(targets[i].endpoint)];
      i := i + 1;
    }
    assert targets[..i] == targets;
  }

  // ----- The three objects agree -----

  lemma {:induction false} CollapseKeepsNames(names: seq<string>, name: string)
    ensures name in Collapse(names) <==> name in names
  {
    if names != [] {
      var last := |names| - 1;
      CollapseKeepsNames(names[..last], name);
      assert names == names[..last] + [names[last]];
    }
  }

  /** Service, endpoints and service monitor carry the same set of port names. */
  lemma SamePortNames(targets: seq<Target>, ports: seq<ServicePort>, subsets: seq<Subset>, name: string)
    requires PortsFor(ports, targets)
    requires |subsets| == |targets| && forall i :: 0 <= i < |targets| ==> subsets[i].name == NameOf(targets[i])
    ensures (exists p :: p in ports && p.name == name) <==> name in Names(targets)
    ensures (exists s :: s in subsets && s.name == name) <==> name in Names(targets)
  {
    hide NameOf, PortValue, Leaders;
    LeadersNames(targets);
    CollapseKeepsNames(Names(targets), name);
    var leaders := Leaders(targets);
    if name in Names(targets) {
      var i :| 0 <= i < |leaders| && Names(leaders)[i] == name;
      assert ports[i] in ports && ports[i].name == name;
      var j :| 0 <= j < |targets| && Names(targets)[j] == name;
      assert subsets[j] in subsets && subsets[j].name == name;
    }
    if p :| p in ports && p.name == name {
      var i :| 0 <= i < |ports| && ports[i] == p;
      assert Names(leaders)[i] == name;
    }
    if s :| s in subsets && s.name == name {
      var j :| 0 <= j < |subsets| && subsets[j] == s;
      assert Names(targets)[j] == name;
    }
  }

  /** Equal names are adjacent. */
  predicate Grouped(names: seq<string>) {
    forall i, j, k :: 0 <= i < j < k < |names| && names[i] == names[k] ==> names[i] == names[j]
  }

  lemma GroupedStep(names: seq<string>)
    requires |names| > 1
    ensures var last := |names| - 1;
            Grouped(names) <==> Grouped(names[..last])
                                && (names[last - 1] == names[last] || names[last] !in names[..last])
  {
    var last := |names| - 1;
    var init := names[..last];
    if Grouped(names) {
      forall i, j, k | 0 <= i < j < k < last && init[i] == init[k]
        ensures init[i] == init[j]
      {
        assert names[i] == names[k];
      }
      if names[last] in init {
        var i :| 0 <= i < last && init[i] == names[last];
        assert names[i] == names[last];
        assert i < last - 1 ==> names[i] == names[last - 1];
      }
    }
    if Grouped(init) && (names[last - 1] == names[last] || names[last] !in init) {
      forall i, j, k | 0 <= i < j < k < |names| && names[i] == names[k]
        ensures names[i] == names[j]
      {
        assert init[i] == names[i] && init[j] == names[j];
        if k < last {
          assert init[k] == names[k];
        } else {
          assert init[i] in init;
          assert init[last - 1] == names[last - 1];
        }
      }
    }
  }

  /** Without adjacent repetitions, names are pairwise distinct exactly when equal ones were adjacent. */
  lemma {:induction false} DistinctWhenGrouped(names: seq<string>)
    ensures Distinct(Collapse(names)) <==> Grouped(names)
  {
    if |names| > 1 {
      var last := |names| - 1;
      var kept := Collapse(names[..last]);
      DistinctWhenGrouped(names[..last]);
      GroupedStep(names);
      CollapseKeepsNames(names[..last], names[last]);
      if names[last - 1] != names[last] {
        AppendDistinct(kept, names[last]);
      }
    }
  }

  lemma AppendDistinct(kept: seq<string>, name: string)
    ensures Distinct(kept + [name]) <==> Distinct(kept) && name !in kept
  {
    var more := kept + [name];
    if Distinct(more) {
      forall i, j | 0 <= i < j < |kept|
        ensures kept[i] != kept[j]
      {
        assert more[i] != more[j];
      }
      forall i | 0 <= i < |kept|
        ensures kept[i] != name
      {
        assert more[i] != more[|kept|];
      }
    }
  }

  /** The names of the service ports are distinct exactly when equal names come from adjacent members, and up
      to the bound of a 32-bit number the ports are 2379, 2380 and so on. */
  lemma ServicePorts(ports: seq<ServicePort>, targets: seq<Target>)
    requires PortsFor(ports, targets)
    ensures (forall i, j :: 0 <= i < j < |ports| ==> ports[i].name != ports[j].name) <==> Grouped(Names(targets))
    ensures forall k :: 0 <= k < |ports| && FIRST_PORT + k < 0x8000_0000 ==> ports[k].port == FIRST_PORT + k
  {
    hide NameOf, PortValue, Leaders, Grouped, Collapse, Distinct, Names;
    LeadersNames(targets);
    DistinctWhenGrouped(Names(targets));
    PortsDistinct(ports, Leaders(targets));
  }

  lemma PortsDistinct(ports: seq<ServicePort>, leaders: seq<Target>)
    requires |ports| == |leaders| && forall k :: 0 <= k < |ports| ==> ports[k].name == NameOf(leaders[k])
    ensures (forall i, j :: 0 <= i < j < |ports| ==> ports[i].name != ports[j].name) <==> Distinct(Names(leaders))
  {
    hide NameOf;
    var names := Names(leaders);
    assert forall k :: 0 <= k < |ports| ==> names[k] == ports[k].name;
    if Distinct(names) {
      forall i, j | 0 <= i < j < |ports|
        ensures ports[i].name != ports[j].name
      {
        assert names[i] != names[j];
      }
    }
  }

  // ----- The relabel rule -----

  /** The place of the last dash, or -1. */
  function LastDash(s: string): (at: int)
    ensures -1 <= at < |s|
    ensures at >= 0 ==> s[at] == '-'
    ensures forall i :: at < i < |s| ==> s[i] != '-'
  {
    if s == "" then -1 else if s[|s| - 1] == '-' then |s| - 1 else LastDash(s[..|s| - 1])
  }

  /** Replace `(.*)-(.*)-(.*)-(.*)` by `$1.$2.$3.$4`: groups are greedy from the left, so the last three dashes
      separate them; a label that does not match is kept. */
  function Relabel(s: string): string {
    var third := LastDash(s);
    if third < 0 then s
    else
      var second := LastDash(s[..third]);
      if second < 0 then s
      else
        var first := LastDash(s[..second]);
        if first < 0 then s
        else s[..first] + "." + s[first + 1..second] + "." + s[second + 1..third] + "." + s[third + 1..]
  }

  predicate IsSeparator(c: char) {
    c == '.' || c == '-'
  }

  /** The dots and dashes of a text, in order. */
  function Separators(s: string): string {
    if s == "" then ""
    else Separators(s[..|s| - 1]) + if IsSeparator(s[|s| - 1]) then [s[|s| - 1]] else ""
  }

  /** The endpoint that the rule gives back: without dots when it has fewer than three separators, and otherwise
      with dots as its last three separators and dashes before. */
  predicate GivenBack(endpoint: string) {
    var marks := Separators(endpoint);
    var n := |marks|;
    if n < 3 then '.' !in marks else marks[n - 3..] == "..." && '.' !in marks[..n - 3]
  }

  lemma {:induction false} SeparatorsAppend(a: string, b: string)
    ensures Separators(a + b) == Separators(a) + Separators(b)
  {
    if b == "" {
      assert a + b == a;
    } else {
      var last := |b| - 1;
      assert (a + b)[..|a + b| - 1] == a + b[..last];
      SeparatorsAppend(a, b[..last]);
    }
  }

  lemma {:induction false} NoSeparators(s: string)
    requires '.' !in s && '-' !in s
    ensures Separators(s) == ""
  {
    if s != "" {
      NoSeparators(s[..|s| - 1]);
    }
  }

  lemma {:induction false} SeparatorsAreMarks(s: string, c: char)
    ensures c in Separators(s) <==> IsSeparator(c) && c in s
  {
    if s != "" {
      SeparatorsAreMarks(s[..|s| - 1], c);
      assert s == s[..|s| - 1] + [s[|s| - 1]];
    }
  }

  /** The port name, character by character. */
  lemma {:induction false} PortNameAt(e: string)
    ensures |PortName(e)| == |e|
    ensures forall i :: 0 <= i < |e| ==> PortName(e)[i] == if e[i] == '.' then '-' else e[i]
    decreases |e|
  {
    if e != "" {
      PortNameAt(e[1..]);
      assert "." <= e <==> e[0] == '.';
      assert PortName(e) == (if e[0] == '.' then "-" else [e[0]]) + PortName(e[1..]);
      forall i | 0 <= i < |e|
        ensures PortName(e)[i] == if e[i] == '.' then '-' else e[i]
      {
        assert i > 0 ==> PortName(e)[i] == PortName(e[1..])[i - 1] && e[i] == e[1..][i - 1];
      }
    }
  }

  /** Do two texts differ in nothing but the kind of their separators? */
  predicate SameSkeleton(x: string, y: string) {
    && |x| == |y|
    && forall i :: 0 <= i < |x| ==> x[i] == y[i] || (IsSeparator(x[i]) && IsSeparator(y[i]))
  }

  /** A text is determined by its skeleton and its separators. */
  lemma {:induction false} SeparatorsDecide(x: string, y: string)
    requires SameSkeleton(x, y)
    ensures |Separators(x)| == |Separators(y)|
    ensures x == y <==> Separators(x) == Separators(y)
  {
    if x != "" {
      var last := |x| - 1;
      SeparatorsDecide(x[..last], y[..last]);
      assert x == x[..last] + [x[last]] && y == y[..last] + [y[last]];
      AppendDecide(x[..last], y[..last], x[last], y[last]);
      var a, b := Separators(x[..last]), Separators(y[..last]);
      assert IsSeparator(x[last]) <==> IsSeparator(y[last]);
      if IsSeparator(x[last]) {
        AppendDecide(a, b, x[last], y[last]);
      } else {
        assert Separators(x) == a + "" == a && Separators(y) == b + "" == b;
      }
    }
  }

  lemma AppendDecide(a: string, b: string, x: char, y: char)
    requires |a| == |b|
    ensures a + [x] == b + [y] <==> a == b && x == y
  {
    assert (a + [x])[|a|] == x && (a + [x])[..|a|] == a;
    assert (b + [y])[|b|] == y && (b + [y])[..|b|] == b;
  }

  /** A text with a dash is cut at its last one. */
  lemma LastCut(p: string) returns (head: string, tail: string)
    requires LastDash(p) >= 0
    ensures head == p[..LastDash(p)] && tail == p[LastDash(p) + 1..]
    ensures p == head + "-" + tail && '-' !in tail
  {
    hide LastDash;
    head, tail := p[..LastDash(p)], p[LastDash(p) + 1..];
  }

  lemma LastDashAt(a: string, b: string)
    requires '-' !in b
    ensures var s := a + "-" + b; LastDash(s) == |a| && s[..|a|] == a && s[|a| + 1..] == b
  {
    hide LastDash;
    var s := a + "-" + b;
    var at := LastDash(s);
    assert s[|a|] == '-';
    assert forall i :: |a| < i < |s| ==> s[i] == b[i - |a| - 1];
  }

  /** The groups of a label that matches: the last three hold no dash. */
  lemma {:induction false} ThreeCuts(a: string, b: string, c: string, d: string)
    requires '-' !in b && '-' !in c && '-' !in d
    ensures Relabel(a + "-" + b + "-" + c + "-" + d) == a + "." + b + "." + c + "." + d
  {
    hide LastDash;
    var ab := a + "-" + b;
    var abc := ab + "-" + c;
    var s := abc + "-" + d;
    LastDashAt(abc, d);
    LastDashAt(ab, c);
    LastDashAt(a, b);
    assert s[..|ab|] == s[..|abc|][..|ab|] && s[..|a|] == s[..|ab|][..|a|];
    assert s[|a| + 1..|ab|] == s[..|ab|][|a| + 1..] && s[|ab| + 1..|abc|] == s[..|abc|][|ab| + 1..];
  }

  /** A label that matches has such groups. */
  lemma RelabelGroups(p: string) returns (a: string, b: string, c: string, d: string)
    requires Relabel(p) != p
    ensures '-' !in b && '-' !in c && '-' !in d
    ensures p == a + "-" + b + "-" + c + "-" + d
  {
    hide LastDash;
    var abc, ab;
    abc, d := LastCut(p);
    ab, c := LastCut(abc);
    assert p[..LastDash(p)][..LastDash(abc)] == p[..LastDash(abc)];
    a, b := LastCut(ab);
  }

  /** The rule changes nothing but separators; fewer than three stay, otherwise the last three become dots. */
  lemma RelabelSeparators(p: string)
    requires '.' !in p
    ensures SameSkeleton(p, Relabel(p))
    ensures var n := |Separators(p)|;
            && |Separators(Relabel(p))| == n
            && '.' !in Separators(p)
            && (n < 3 ==> Relabel(p) == p)
            && (n >= 3 ==> Separators(Relabel(p)) == Separators(p)[..n - 3] + "...")
  {
    hide Relabel, Separators;
    SeparatorsAreMarks(p, '.');
    if Relabel(p) == p {
      RelabelKeeps(p);
    } else {
      var a, b, c, d := RelabelGroups(p);
      ThreeCuts(a, b, c, d);
      assert '.' !in b && '.' !in c && '.' !in d;
      NoSeparators(b);
      NoSeparators(c);
      NoSeparators(d);
      JoinedSeparators(a, "-", b, c, d);
      JoinedSeparators(a, ".", b, c, d);
      var marks := Separators(a) + "-" + "-" + "-";
      assert Separators(p) == marks && marks[..|marks| - 3] == Separators(a);
      assert Separators(a) + "." + "." + "." == Separators(a) + "...";
      SkeletonOfJoin(a, b, c, d);
    }
  }

  lemma SkeletonOfJoin(a: string, b: string, c: string, d: string)
    ensures SameSkeleton(a + "-" + b + "-" + c + "-" + d, a + "." + b + "." + c + "." + d)
  {
  }

  lemma JoinedSeparators(a: string, mark: string, b: string, c: string, d: string)
    requires mark == "." || mark == "-"
    requires Separators(b) == "" && Separators(c) == "" && Separators(d) == ""
    ensures Separators(a + mark + b + mark + c + mark + d) == Separators(a) + mark + mark + mark
  {
    hide Separators;
    SeparatorsOfOne(mark);
    SeparatorsAppend(a, mark);
    SeparatorsAppend(a + mark, b);
    SeparatorsAppend(a + mark + b, mark);
    SeparatorsAppend(a + mark + b + mark, c);
    SeparatorsAppend(a + mark + b + mark + c, mark);
    SeparatorsAppend(a + mark + b + mark + c + mark, d);
  }

  lemma SeparatorsOfOne(mark: string)
    requires mark == "." || mark == "-"
    ensures Separators(mark) == mark
  {
    assert mark[..0] == "";
  }

  lemma MatchChanges(p: string)
    requires '.' !in p && LastDash(p) >= 0 && LastDash(p[..LastDash(p)]) >= 0
    requires LastDash(p[..LastDash(p[..LastDash(p)])]) >= 0
    ensures Relabel(p) != p
  {
    hide LastDash;
    var second := LastDash(p[..LastDash(p)]);
    assert p[..LastDash(p)][..second] == p[..second];
    assert Relabel(p)[LastDash(p[..second])] == '.';
  }

  lemma RelabelKeeps(p: string)
    requires '.' !in p && Relabel(p) == p
    ensures |Separators(p)| < 3
  {
    hide LastDash, Separators;
    var third := LastDash(p);
    DashCount(p);
    if third >= 0 {
      DashCount(p[..third]);
      var second := LastDash(p[..third]);
      if second >= 0 {
        assert p[..third][..second] == p[..second];
        DashCount(p[..second]);
        var first := LastDash(p[..second]);
        if first >= 0 {
          MatchChanges(p);
          assert false;
        }
      }
    }
  }

  /** A text without dots has one separator more than the text before its last dash. */
  lemma DashCount(p: string)
    requires '.' !in p
    ensures LastDash(p) < 0 ==> Separators(p) == ""
    ensures LastDash(p) >= 0 ==> |Separators(p)| == |Separators(p[..LastDash(p)])| + 1
  {
    var at := LastDash(p);
    if at < 0 {
      NoSeparators(p);
    } else {
      var head, tail := p[..at], p[at + 1..];
      assert p == head + "-" + tail;
      SeparatorsAppend(head, "-");
      SeparatorsAppend(head + "-", tail);
      NoSeparators(tail);
      SeparatorsOfOne("-");
    }
  }

  /** The relabel rule turns the port name of an endpoint back into the endpoint exactly for these. */
  lemma RelabelRoundTrip(e: string)
    ensures Relabel(PortName(e)) == e <==> GivenBack(e)
  {
    hide Relabel, Separators, PortName, IsSeparator;
    var p := PortName(e);
    PortNameAt(e);
    PortNameSkeleton(e);
    SeparatorsDecide(e, p);
    RelabelSeparators(p);
    SkeletonTrans(e, p, Relabel(p));
    SeparatorsDecide(e, Relabel(p));
    var n := |Separators(e)|;
    var was, now := Separators(e), Separators(Relabel(p));
    DashesOrDots(e);
    DashesOnly(p);
    if n < 3 {
      assert now == Separators(p);
      assert was == now <==> '.' !in was;
    } else {
      var front := Separators(p)[..n - 3];
      assert now == front + "...";
      assert now[..n - 3] == front && now[n - 3..] == "...";
      assert was == was[..n - 3] + was[n - 3..];
      assert '.' !in was[..n - 3] <==> was[..n - 3] == front;
    }
  }

  lemma PortNameSkeleton(e: string)
    ensures SameSkeleton(e, PortName(e)) && '.' !in PortName(e)
  {
    PortNameAt(e);
  }

  lemma SkeletonTrans(x: string, y: string, z: string)
    requires SameSkeleton(x, y) && SameSkeleton(y, z)
    ensures SameSkeleton(x, z)
  {
  }

  lemma DashesOrDots(e: string)
    ensures forall i :: 0 <= i < |Separators(e)| ==> Separators(e)[i] in {'.', '-'}
  {
    forall i | 0 <= i < |Separators(e)|
      ensures Separators(e)[i] in {'.', '-'}
    {
      SeparatorsAreMarks(e, Separators(e)[i]);
    }
  }

  lemma DashesOnly(p: string)
    requires '.' !in p
    ensures forall i :: 0 <= i < |Separators(p)| ==> Separators(p)[i] == '-'
  {
    DashesOrDots(p);
    SeparatorsAreMarks(p, '.');
  }

  /** In particular for four labels free of dots and dashes, such as an IPv4 address. */
  lemma FourLabels(a: string, b: string, c: string, d: string)
    requires forall s :: s in [a, b, c, d] ==> '.' !in s && '-' !in s
    ensures var e := a + "." + b + "." + c + "." + d; Relabel(PortName(e)) == e
  {
    var e := a + "." + b + "." + c + "." + d;
    assert a in [a, b, c, d] && b in [a, b, c, d] && c in [a, b, c, d] && d in [a, b, c, d];
    NoSeparators(a);
    NoSeparators(b);
    NoSeparators(c);
    NoSeparators(d);
    JoinedSeparators(a, ".", b, c, d);
    assert Separators(e) == "...";
    RelabelRoundTrip(e);
  }
}
