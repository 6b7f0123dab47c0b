/** Stored values are sniffed: the leftmost Kubernetes protobuf prefix wins, then the leftmost JSON document. */
module JsonDetect {
  import opened Options

  type Byte = b: int | 0 <= b < 256
  type Bytes = seq<Byte>

  /** What counts as a JSON text (section 2 of RFC 8259) is left to the JSON library. */
  type Validity = Bytes -> bool

  /** The bytes "k8s" and a zero. */
  const PROTO_PREFIX: Bytes := [0x6b, 0x38, 0x73, 0x00]

  const OPEN_BRACE: Byte := 0x7b
  const OPEN_BRACKET: Byte := 0x5b

  predicate IsJsonStart(b: Byte) {
    b == OPEN_BRACE || b == OPEN_BRACKET
  }

  /** The white space of section 2 of RFC 8259. */
  predicate IsSpace(b: Byte) {
    b in {0x20, 0x09, 0x0a, 0x0d}
  }

  // ----- Searching -----

  predicate PrefixAt(s: Bytes, k: nat) {
    k + 4 <= |s| && s[k] == 0x6b && s[k + 1] == 0x38 && s[k + 2] == 0x73 && s[k + 3] == 0x00
  }

  /** The leftmost place of the prefix. */
  predicate FirstPrefixAt(s: Bytes, k: nat) {
    PrefixAt(s, k) && forall j :: 0 <= j < k ==> !PrefixAt(s, j)
  }

  /** Go's `bytes.Index` for the protobuf prefix. */
  function IndexProto(s: Bytes): (k: int)
    ensures -1 <= k < |s|
    ensures k >= 0 ==> PrefixAt(s, k)
    ensures forall j :: 0 <= j < (if k < 0 then |s| else k) ==> !PrefixAt(s, j)
  {
    if PrefixAt(s, 0) then 0
    else if s == [] then -1
    else
      var k := IndexProto(s[1..]);
      assert forall j :: 0 < j < |s| ==> (PrefixAt(s, j) <==> PrefixAt(s[1..], j - 1));
      if k < 0 then -1 else k + 1
  }

  /** Go's `bytes.IndexAny` for the two bytes a JSON document can start with. */
  function IndexJsonStart(s: Bytes): (k: int)
    ensures -1 <= k < |s|
    ensures k >= 0 ==> IsJsonStart(s[k])
    ensures forall j :: 0 <= j < (if k < 0 then |s| else k) ==> !IsJsonStart(s[j])
  {
    if s == [] then -1
    else if IsJsonStart(s[0]) then 0
    else
      var k := IndexJsonStart(s[1..]);
      if k < 0 then -1 else k + 1
  }

  /** The bytes without the white space at their end, all of it and nothing else. */
  function TrimEnd(s: Bytes): (t: Bytes)
    ensures t <= s && (t == [] || !IsSpace(t[|t| - 1]))
    ensures forall i :: |t| <= i < |s| ==> IsSpace(s[i])
  {
    if s != [] && IsSpace(s[|s| - 1]) then TrimEnd(s[..|s| - 1]) else s
  }

  // ----- What should be found -----

  /** A JSON object or array, of at least two bytes, that reaches to the end of the value. */
  predicate JsonAt(s: Bytes, valid: Validity, k: nat) {
    k + 2 <= |s| && IsJsonStart(s[k]) && valid(s[k..])
  }

  /** An object or an array has two delimiters (sections 4 and 5 of RFC 8259). */
  ghost predicate TwoDelimiters(valid: Validity) {
    forall s: Bytes :: s != [] && IsJsonStart(s[0]) && valid(s) ==> |s| >= 2
  }

  /** The two bytes exclude no document. */
  lemma LengthExcludesNothing(s: Bytes, valid: Validity, k: nat)
    requires TwoDelimiters(valid)
    ensures JsonAt(s, valid, k) <==> k < |s| && IsJsonStart(s[k]) && valid(s[k..])
  {
    if k < |s| {
      assert s[k..][0] == s[k];
    }
  }

  /** The leftmost place of a document, that is, the longest valid suffix. */
  function FirstJson(s: Bytes, valid: Validity, from: nat): (k: Option<nat>)
    ensures k.Some? ==> from <= k.value < |s| && JsonAt(s, valid, k.value)
    ensures forall j :: from <= j < (if k.Some? then k.value else |s|) ==> !JsonAt(s, valid, j)
    decreases |s| - from
  {
    if from >= |s| then None
    else if JsonAt(s, valid, from) then Some(from)
    else FirstJson(s, valid, from + 1)
  }

  /** The bytes of a document are those up to its closing delimiter. */
  function Json(s: Bytes, valid: Validity): Option<Bytes> {
    match FirstJson(s, valid, 0)
    case None => None
    case Some(k) => Some(TrimEnd(s[k..]))
  }

  datatype Detected = Binary(data: Bytes) | JsonText(data: Bytes) | NotDetected

  function Detect(s: Bytes, valid: Validity): Detected {
    if IndexProto(s) >= 0 then Binary(s[IndexProto(s)..])
    else match Json(s, valid)
         case None => NotDetected
         case Some(data) => JsonText(data)
  }

  // ----- The code -----

  /** `tryFindProto`. */
  method TryFindProto(s: Bytes) returns (found: Option<Bytes>)
    ensures found.Some? <==> exists k: nat :: PrefixAt(s, k)
    ensures found.Some? ==> exists k: nat :: FirstPrefixAt(s, k) && found.value == s[k..]
  {
    var i := IndexProto(s);
    if i >= 0 && i < |s| {
      assert PrefixAt(s, i) && FirstPrefixAt(s, i);
      return Some(s[i..]);
    }
    return None;
  }

  /** `tryFindJSON`: from one possible start to the next until the rest is a document. */
  method TryFindJSON(s: Bytes, valid: Validity) returns (found: Option<Bytes>)
    ensures found == Json(s, valid)
  {
    hide Json, IndexJsonStart, TrimEnd;
    var rest := s;
    ghost var at := 0;
    var i := IndexJsonStart(rest);
    while i >= 0 && i < |rest|
      invariant at + |rest| == |s| && rest == s[at..]
      invariant i == IndexJsonStart(rest)
      invariant forall j :: 0 <= j < at ==> !JsonAt(s, valid, j)
      decreases |rest|
    {
      assert forall j :: at <= j < at + i ==> s[j] == rest[j - at];
      at := at + i;
      rest := rest[i..];
      if |rest| < 2 {
        break;
      }
      if valid(rest) {
        FirstJsonIs(s, valid, at);
        return Some(TrimEnd(rest));
      }
      rest := rest[1..];
      at := at + 1;
      i := IndexJsonStart(rest);
    }
    NoneLeft(s, valid, at);
    return None;
  }

  lemma FirstJsonIs(s: Bytes, valid: Validity, k: nat)
    requires JsonAt(s, valid, k) && forall j :: 0 <= j < k ==> !JsonAt(s, valid, j)
    ensures Json(s, valid) == Some(TrimEnd(s[k..]))
  {
    hide TrimEnd;
    var first := FirstJson(s, valid, 0);
    assert first.Some? && first.value <= k;
  }

  lemma NoneLeft(s: Bytes, valid: Validity, at: nat)
    requires at <= |s|
    requires forall j :: 0 <= j < at ==> !JsonAt(s, valid, j)
    requires IndexJsonStart(s[at..]) < 0 || |s| - at < 2
    ensures Json(s, valid) == None
  {
    forall j | 0 <= j < |s|
      ensures !JsonAt(s, valid, j)
    {
      if at <= j {
        assert s[at..][j - at] == s[j];
      }
    }
  }

  /** `DetectAndExtract`. */
  method DetectAndExtract(s: Bytes, valid: Validity) returns (detected: Detected)
    ensures detected == Detect(s, valid)
  {
    var proto := TryFindProto(s);
    if proto.Some? {
      ghost var k: nat :| FirstPrefixAt(s, k) && proto.value == s[k..];
      assert IndexProto(s) == k;
      return Binary(proto.value);
    }
    var json := TryFindJSON(s, valid);
    if json.Some? {
      return JsonText(json.value);
    }
    return NotDetected;
  }

  datatype Unwrapped = TooShort | WrongPrefix | Payload(data: Bytes)

  /** `DecodeUnknown` up to the protobuf library. */
  method DecodeUnknown(s: Bytes) returns (r: Unwrapped)
    ensures r.Payload? <==> PrefixAt(s, 0)
    ensures r.Payload? ==> s == PROTO_PREFIX + r.data
    ensures r == TooShort <==> |s| < |PROTO_PREFIX|
  {
    if |s| < 4 {
      return TooShort;
    }
    if s[..4] != PROTO_PREFIX {
      return WrongPrefix;
    }
    return Payload(s[4..]);
  }

  // ----- What detection guarantees -----

  /** `data` is `s` up to the white space at its end. */
  ghost predicate UpToSpace(data: Bytes, s: Bytes) {
    data <= s && (data == [] || !IsSpace(data[|data| - 1])) && forall i :: |data| <= i < |s| ==> IsSpace(s[i])
  }

  /** Binary data is the longest suffix that `DecodeUnknown` accepts; without one, a JSON text is the longest
      valid suffix that starts an object or an array, up to the white space at its end; and nothing is detected only if neither exists. */
  lemma DetectMeaning(s: Bytes, valid: Validity)
    ensures Detect(s, valid).Binary? <==> exists k: nat :: PrefixAt(s, k)
    ensures Detect(s, valid).JsonText? <==> (forall k: nat :: !PrefixAt(s, k)) && exists k: nat :: JsonAt(s, valid, k)
    ensures forall k: nat :: Detect(s, valid).Binary? && PrefixAt(s, k) ==>
              |s| - k <= |Detect(s, valid).data| && PrefixAt(Detect(s, valid).data, 0)
    ensures forall k: nat :: Detect(s, valid).JsonText? && JsonAt(s, valid, k) ==>
              exists first: nat :: first <= k && JsonAt(s, valid, first) && UpToSpace(Detect(s, valid).data, s[first..])
  {
    var p := IndexProto(s);
    if p >= 0 {
      assert PrefixAt(s, p);
    }
    var first := FirstJson(s, valid, 0);
    if first.Some? {
      assert JsonAt(s, valid, first.value);
    }
  }

  /** A document stays one without the white space after it. */
  ghost predicate SpaceAfterIsFree(valid: Validity) {
    forall s: Bytes :: valid(s) ==> valid(TrimEnd(s))
  }

  lemma {:induction false} TrimEndPrefix(s: Bytes)
    ensures TrimEnd(s) <= s && TrimEnd(TrimEnd(s)) == TrimEnd(s)
    ensures s != [] && !IsSpace(s[0]) ==> TrimEnd(s) != []
  {
    if s != [] && IsSpace(s[|s| - 1]) {
      TrimEndPrefix(s[..|s| - 1]);
    }
  }

  /** Detection is idempotent: what it extracts is detected as the same thing. */
  lemma DetectIdempotent(s: Bytes, valid: Validity)
    requires SpaceAfterIsFree(valid) && TwoDelimiters(valid)
    ensures Detect(s, valid) != NotDetected ==> Detect(Detect(s, valid).data, valid) == Detect(s, valid)
  {
    var p := IndexProto(s);
    if p >= 0 {
      assert PrefixAt(s[p..], 0);
    } else if FirstJson(s, valid, 0).Some? {
      var k := FirstJson(s, valid, 0).value;
      var data := TrimEnd(s[k..]);
      TrimEndPrefix(s[k..]);
      assert data[0] == s[k];
      forall j | 0 <= j < |data|
        ensures !PrefixAt(data, j)
      {
        assert !PrefixAt(s, k + j);
      }
      assert data[0..] == data;
      assert JsonAt(data, valid, 0);
    }
  }

  /** Leading bytes that start neither form are skipped. */
  lemma LeadingBytesSkipped(junk: Bytes, s: Bytes, valid: Validity)
    requires forall k :: 0 <= k < |junk| ==> !PrefixAt(junk + s, k) && !IsJsonStart(junk[k])
    ensures Detect(junk + s, valid) == Detect(s, valid)
  {
    hide IndexProto, FirstJson, TrimEnd, PrefixAt, JsonAt;
    var t := junk + s;
    forall k | |junk| <= k
      ensures PrefixAt(t, k) <==> PrefixAt(s, k - |junk|)
      ensures JsonAt(t, valid, k) <==> JsonAt(s, valid, k - |junk|)
    {
      ShiftedPlaces(junk, s, valid, k);
    }
    ShiftedProto(junk, s);
    NoJsonInJunk(junk, s, valid);
    SkipNoJson(t, valid, 0, |junk|);
    ShiftedJson(junk, s, valid, 0);
    assert forall k :: 0 <= k <= |s| ==> t[|junk| + k..] == s[k..];
  }

  lemma ShiftedPlaces(junk: Bytes, s: Bytes, valid: Validity, k: nat)
    requires |junk| <= k
    ensures PrefixAt(junk + s, k) <==> PrefixAt(s, k - |junk|)
    ensures JsonAt(junk + s, valid, k) <==> JsonAt(s, valid, k - |junk|)
  {
    assert k <= |junk + s| ==> (junk + s)[k..] == s[k - |junk|..];
  }

  lemma NoJsonInJunk(junk: Bytes, s: Bytes, valid: Validity)
    requires forall k :: 0 <= k < |junk| ==> !IsJsonStart(junk[k])
    ensures forall k :: 0 <= k < |junk| ==> !JsonAt(junk + s, valid, k)
  {
  }

  lemma ShiftedProto(junk: Bytes, s: Bytes)
    requires forall k :: 0 <= k < |junk| ==> !PrefixAt(junk + s, k)
    requires forall k :: |junk| <= k ==> (PrefixAt(junk + s, k) <==> PrefixAt(s, k - |junk|))
    ensures IndexProto(junk + s) == if IndexProto(s) < 0 then -1 else |junk| + IndexProto(s)
  {
    hide IndexProto, PrefixAt;
    var k, l := IndexProto(s), IndexProto(junk + s);
    if k >= 0 {
      assert PrefixAt(junk + s, |junk| + k);
    }
  }

  lemma {:induction false} SkipNoJson(t: Bytes, valid: Validity, i: nat, n: nat)
    requires i <= n <= |t| && forall k :: i <= k < n ==> !JsonAt(t, valid, k)
    ensures FirstJson(t, valid, i) == FirstJson(t, valid, n)
    decreases n - i
  {
    if i < n {
      SkipNoJson(t, valid, i + 1, n);
    }
  }

  lemma {:induction false} ShiftedJson(junk: Bytes, s: Bytes, valid: Validity, i: nat)
    requires i <= |s|
    requires forall k :: |junk| <= k ==> (JsonAt(junk + s, valid, k) <==> JsonAt(s, valid, k - |junk|))
    ensures var k, l := FirstJson(s, valid, i), FirstJson(junk + s, valid, |junk| + i);
            if k.None? then l.None? else l == Some(|junk| + k.value)
    decreases |s| - i
  {
    hide JsonAt;
    if i < |s| {
      assert JsonAt(junk + s, valid, |junk| + i) <==> JsonAt(s, valid, i);
      ShiftedJson(junk, s, valid, i + 1);
    }
  }
}
