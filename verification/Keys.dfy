/** The length-prefixed composite keys of the in-memory store, and a decoder that inverts them. */
module Keys {
  import opened Domain

  const COLON: byte := 58
  const BAR: byte := 124
  const DIGIT_ZERO: byte := 48

  predicate IsDigit(b: byte) {
    DIGIT_ZERO <= b <= 57
  }

  predicate AllDigits(s: Bytes) {
    forall i :: 0 <= i < |s| ==> IsDigit(s[i])
  }

  /** The decimal digits of `n`, as Go's %d prints them. */
  function Decimal(n: nat): (d: Bytes)
    ensures |d| >= 1 && AllDigits(d)
  {
    var last := DIGIT_ZERO + (n % 10) as byte;
    if n < 10 then [last] else Decimal(n / 10) + [last]
  }

  /** The number that a digit string denotes. */
  function Value(d: Bytes): nat
    requires AllDigits(d)
  {
    if d == [] then 0
    else Value(d[..|d| - 1]) * 10 + (d[|d| - 1] - DIGIT_ZERO) as int
  }

  lemma {:induction false} ValueOfDecimal(n: nat)
    ensures Value(Decimal(n)) == n
  {
    if n >= 10 {
      ValueOfDecimal(n / 10);
      assert Decimal(n)[..|Decimal(n)| - 1] == Decimal(n / 10);
    }
  }

  /** What the key of a list of parts is: each part as its length, a colon, its bytes and a bar. */
  function Encode(parts: seq<Bytes>): Bytes {
    if parts == [] then []
    else Decimal(|parts[0]|) + ([COLON] + (parts[0] + ([BAR] + Encode(parts[1..]))))
  }

  /** The source's accumulating loop. */
  method EncodeKeyPart(parts: seq<Bytes>) returns (encoded: Bytes)
    ensures encoded == Encode(parts)
  {
    encoded := [];
    for i := 0 to |parts|
      invariant encoded + Encode(parts[i..]) == Encode(parts)
    {
      var part := Decimal(|parts[i]|) + [COLON] + parts[i] + [BAR];
      assert parts[i..][0] == parts[i] && parts[i..][1..] == parts[i + 1..];
      assert Encode(parts[i..]) == part + Encode(parts[i + 1..]);
      assert encoded + (part + Encode(parts[i + 1..])) == (encoded + part) + Encode(parts[i + 1..]);
      encoded := encoded + part;
    }
    assert Encode(parts[|parts|..]) == [];
  }

  /** How many leading bytes of `s` are digits. */
  function DigitSpan(s: Bytes): (n: nat)
    ensures n <= |s| && AllDigits(s[..n])
    ensures n < |s| ==> !IsDigit(s[n])
  {
    if s == [] || !IsDigit(s[0]) then 0
    else
      var rest := DigitSpan(s[1..]);
      assert s[..rest + 1] == [s[0]] + s[1..][..rest];
      rest + 1
  }

  datatype Split = Split(part: Bytes, rest: Bytes)

  /** Reads one part off the front: a digit run, a colon, that many bytes and a bar. */
  function ReadPart(s: Bytes): (r: Option<Split>)
    ensures r.Some? ==> |r.value.rest| < |s|
  {
    var i := DigitSpan(s);
    if i == |s| || s[i] != COLON then None
    else
      var body, n := s[i + 1..], Value(s[..i]);
      if n >= |body| || body[n] != BAR then None
      else Some(Split(body[..n], body[n + 1..]))
  }

  /** Reads a whole key back. */
  function Decode(s: Bytes): Option<seq<Bytes>>
    decreases |s|
  {
    if s == [] then Some([])
    else
      match ReadPart(s)
      case None => None
      case Some(split) =>
        match Decode(split.rest)
        case None => None
        case Some(more) => Some([split.part] + more)
  }

  /** A digit run followed by a non-digit is found whole. */
  lemma {:induction false} DigitSpanOf(digits: Bytes, tail: Bytes)
    requires AllDigits(digits) && tail != [] && !IsDigit(tail[0])
    ensures DigitSpan(digits + tail) == |digits|
  {
    if digits != [] {
      assert (digits + tail)[1..] == digits[1..] + tail;
      DigitSpanOf(digits[1..], tail);
    }
  }

  lemma Slices<T>(a: seq<T>, x: T, b: seq<T>)
    ensures var s := a + ([x] + b);
            |a| < |s| && s[..|a|] == a && s[|a|] == x && s[|a| + 1..] == b
  {
  }

  lemma ReadPartFound(s: Bytes, digits: Bytes, body: Bytes)
    requires DigitSpan(s) == |digits| < |s| && s[..|digits|] == digits && s[|digits|] == COLON && s[|digits| + 1..] == body
    requires AllDigits(digits) && Value(digits) < |body| && body[Value(digits)] == BAR
    ensures ReadPart(s) == Some(Split(body[..Value(digits)], body[Value(digits) + 1..]))
  {
  }

  lemma ReadPartBehind(digits: Bytes, body: Bytes)
    requires AllDigits(digits) && Value(digits) < |body| && body[Value(digits)] == BAR
    ensures ReadPart(digits + ([COLON] + body)) == Some(Split(body[..Value(digits)], body[Value(digits) + 1..]))
  {
    DigitSpanOf(digits, [COLON] + body);
    Slices(digits, COLON, body);
    ReadPartFound(digits + ([COLON] + body), digits, body);
  }

  /** One encoded part is read back off the front of any string. */
  lemma ReadPartOfEncoded(part: Bytes, rest: Bytes)
    ensures ReadPart(Decimal(|part|) + ([COLON] + (part + ([BAR] + rest)))) == Some(Split(part, rest))
  {
    ValueOfDecimal(|part|);
    Slices(part, BAR, rest);
    ReadPartBehind(Decimal(|part|), part + ([BAR] + rest));
  }

  lemma DecodeOnePart(part: Bytes, rest: Bytes, more: seq<Bytes>)
    requires Decode(rest) == Some(more)
    ensures Decode(Decimal(|part|) + ([COLON] + (part + ([BAR] + rest)))) == Some([part] + more)
  {
    ReadPartOfEncoded(part, rest);
  }

  /** The decoder inverts the encoder, for any number of parts and any bytes in them. */
  lemma {:induction false} DecodeInvertsEncode(parts: seq<Bytes>)
    ensures Decode(Encode(parts)) == Some(parts)
  {
    if parts != [] {
      var part, more := parts[0], parts[1..];
      DecodeInvertsEncode(more);
      DecodeOnePart(part, Encode(more), more);
      assert [part] + more == parts;
    }
  }

  /** Distinct part lists never share a key. */
  lemma EncodeIsInjective(a: seq<Bytes>, b: seq<Bytes>)
    ensures Encode(a) == Encode(b) <==> a == b
  {
    DecodeInvertsEncode(a);
    DecodeInvertsEncode(b);
  }

  function IngestKey(source: Bytes, externalID: Bytes): Bytes {
    Encode([source, externalID])
  }

  function IngestEventKey(k: EventKey): Bytes {
    Encode([k.eventType, k.source, k.eventID])
  }

  lemma IngestKeyIsInjective(source: Bytes, id: Bytes, source': Bytes, id': Bytes)
    ensures IngestKey(source, id) == IngestKey(source', id') <==> source == source' && id == id'
  {
    EncodeIsInjective([source, id], [source', id']);
    assert [source, id][0] == source && [source, id][1] == id;
    assert [source', id'][0] == source' && [source', id'][1] == id';
  }

  lemma IngestEventKeyIsInjective(k: EventKey, k': EventKey)
    ensures IngestEventKey(k) == IngestEventKey(k') <==> k == k'
  {
    var a, b := [k.eventType, k.source, k.eventID], [k'.eventType, k'.source, k'.eventID];
    EncodeIsInjective(a, b);
    assert a[0] == k.eventType && a[1] == k.source && a[2] == k.eventID;
    assert b[0] == k'.eventType && b[1] == k'.source && b[2] == k'.eventID;
  }
}
