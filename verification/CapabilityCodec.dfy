// Capability routing carried in five reserved metadata entries of a message: encoding writes them,
// decoding parses and removes them.
module CapabilityCodec {
  import opened Prelude
  import opened Text
  import opened Metadata

  const U16_LIMIT: nat := 65536
  const MAX_NAME_BYTES: nat := 128

  datatype Message = Message(contentType: seq<byte>, headers: Entries, payload: seq<byte>)

  datatype Routing = Routing(
    name: seq<byte>,
    version: nat,
    operation: seq<byte>,
    operationVersion: nat,
    contract: seq<byte>)

  datatype Request = Request(routing: Routing, input: Message)

  datatype CodecError =
    | Missing(key: seq<byte>)
    | InvalidEncoding(key: seq<byte>)
    | InvalidVersion(key: seq<byte>)
    | InvalidIdentifier(key: seq<byte>)
    | OverBounds(kind: ErrorKind)

  function NameKey(): seq<byte> { Ascii("plenora.capability.name") }
  function VersionKey(): seq<byte> { Ascii("plenora.capability.version") }
  function OperationKey(): seq<byte> { Ascii("plenora.capability.operation") }
  function OperationVersionKey(): seq<byte> { Ascii("plenora.operation.version") }
  function ContractKey(): seq<byte> { Ascii("plenora.input.contract") }

  lemma ReservedKeysAreDistinct()
    ensures |NameKey()| == 23 && |VersionKey()| == 26 && |OperationKey()| == 28
    ensures |OperationVersionKey()| == 25 && |ContractKey()| == 22
  {
  }

  // ---------------------------------------------------------------- versions

  function WithoutSign(t: seq<byte>): seq<byte> {
    if t != [] && t[0] == 43 then t[1..] else t
  }

  // Parsing of an unsigned 16-bit number: an optional plus sign, then at least one digit. Leading
  // zeros are accepted.
  function ParseU16(t: seq<byte>): Option<nat> {
    var digits := WithoutSign(t);
    if digits == [] || !AllDigits(digits) || NumberOf(digits) >= U16_LIMIT then None else Some(NumberOf(digits))
  }

  // The accepted texts of a number: its canonical text behind any leading zeros and at most one plus.
  lemma ParsesExactly(t: seq<byte>, n: nat)
    ensures ParseU16(t) == Some(n) <==> n < U16_LIMIT && exists k :: WithoutSign(t) == Zeros(k) + Decimal(n)
  {
    if ParseU16(t) == Some(n) {
      var k := DigitsArePadded(WithoutSign(t));
      assert WithoutSign(t) == Zeros(k) + Decimal(n);
    }
    if n < U16_LIMIT && exists k :: WithoutSign(t) == Zeros(k) + Decimal(n) {
      var k :| WithoutSign(t) == Zeros(k) + Decimal(n);
      PaddedIsRead(k, n);
      DecimalIsRead(n);
    }
  }

  lemma ParsedVersionIsShortest(t: seq<byte>)
    requires ParseU16(t).Some?
    ensures |Decimal(ParseU16(t).value)| <= |t|
  {
    DecimalIsShortest(WithoutSign(t));
  }

  lemma DecimalParses(n: nat)
    requires n < U16_LIMIT
    ensures ParseU16(Decimal(n)) == Some(n) && Utf8(Decimal(n))
  {
    DecimalIsRead(n);
    assert Digit(Decimal(n)[0]);
    AsciiIsUtf8(Decimal(n));
  }

  // ---------------------------------------------------------------- identifiers

  predicate Portable(b: byte) {
    Lower(b) || Digit(b) || b == 45 || b == 95
  }

  predicate SegmentOk(part: seq<byte>) {
    && part != [] && (forall b <- part :: Portable(b))
    && Alphanumeric(part[0]) && Alphanumeric(part[|part| - 1])
  }

  // A namespaced capability or operation name.
  predicate NameOk(name: seq<byte>) {
    0 < |name| <= MAX_NAME_BYTES && DOT in name && forall part <- Split(name, DOT) :: SegmentOk(part)
  }

  predicate MarkAt(s: seq<byte>, i: int) {
    0 <= i < |s| - 1 && s[i] == 45 && s[i + 1] == 118
  }

  // Position of the last "-v".
  function LastMark(s: seq<byte>): (r: Option<nat>)
    ensures r.Some? ==> r.value + 2 <= |s|
  {
    if |s| < 2 then None
    else if s[|s| - 2] == 45 && s[|s| - 1] == 118 then Some(|s| - 2)
    else LastMark(s[..|s| - 1])
  }

  // A contract identifier: "plenora-", a lowercase name, "-v" and a positive number without
  // leading zero.
  predicate ContractOk(id: seq<byte>) {
    var prefix := Ascii("plenora-");
    && 0 < |id| <= MAX_NAME_BYTES && prefix <= id
    && var rest := id[|prefix|..];
       var mark := LastMark(rest);
       && mark.Some?
       && var name, version := rest[..mark.value], rest[mark.value + 2..];
          && name != [] && (forall b <- name :: Lower(b) || Digit(b) || b == 45)
          && version != [] && 49 <= version[0] <= 57 && AllDigits(version)
  }

  // The shape of a name by its characters: lowercase letters, digits, hyphens, underscores and dots,
  // with a letter or a digit at both ends and on both sides of every dot.
  ghost predicate NameShape(s: seq<byte>) {
    && s != [] && Alphanumeric(s[0]) && Alphanumeric(s[|s| - 1])
    && forall i :: 0 <= i < |s| ==> Fits(s, i)
  }

  ghost predicate Fits(s: seq<byte>, i: int)
    requires 0 <= i < |s|
  {
    if s[i] == DOT then 0 < i < |s| - 1 && Alphanumeric(s[i - 1]) && Alphanumeric(s[i + 1]) else Portable(s[i])
  }

  lemma SegmentShape(part: seq<byte>)
    requires DOT !in part
    ensures SegmentOk(part) <==> NameShape(part)
  {
    assert forall i :: 0 <= i < |part| ==> part[i] in part && (Fits(part, i) <==> Portable(part[i]));
  }

  lemma FitsInPart(part: seq<byte>, rest: seq<byte>, i: nat)
    requires DOT !in part && i < |part|
    ensures Fits(part + [DOT] + rest, i) <==> Fits(part, i)
  {
    assert (part + [DOT] + rest)[i] == part[i] && part[i] in part;
  }

  lemma FitsInRest(part: seq<byte>, rest: seq<byte>, i: nat)
    requires i < |rest|
    ensures Fits(part + [DOT] + rest, |part| + 1 + i) <==> Fits(rest, i)
  {
    var s, n := part + [DOT] + rest, |part| + 1;
    assert s[n + i] == rest[i];
    assert i > 0 ==> s[n + i - 1] == rest[i - 1];
    assert i + 1 < |rest| ==> s[n + i + 1] == rest[i + 1];
  }

  lemma FitsBetween(part: seq<byte>, rest: seq<byte>)
    ensures Fits(part + [DOT] + rest, |part|) <==>
            part != [] && rest != [] && Alphanumeric(part[|part| - 1]) && Alphanumeric(rest[0])
  {
    var s, n := part + [DOT] + rest, |part|;
    assert s[n] == DOT && (n > 0 ==> s[n - 1] == part[n - 1]) && (rest != [] ==> s[n + 1] == rest[0]);
  }

  lemma ShapeOfFirst(part: seq<byte>, rest: seq<byte>)
    requires DOT !in part
    ensures NameShape(part + [DOT] + rest) <==> NameShape(part) && NameShape(rest)
  {
    hide Fits;
    var s, n := part + [DOT] + rest, |part|;
    FitsBetween(part, rest);
    forall i: nat | i < n ensures Fits(s, i) <==> Fits(part, i) { FitsInPart(part, rest, i); }
    forall i: nat | i < |rest| ensures Fits(s, n + 1 + i) <==> Fits(rest, i) { FitsInRest(part, rest, i); }
    assert n > 0 ==> s[0] == part[0];
    assert rest != [] ==> s[|s| - 1] == rest[|rest| - 1];
    if NameShape(s) {
      forall i: nat | i < |rest| ensures Fits(rest, i) { assert Fits(s, n + 1 + i); }
      assert Fits(s, n);
    }
    if NameShape(part) && NameShape(rest) {
      forall i | 0 <= i < |s| ensures Fits(s, i) {
        if i > n { assert Fits(rest, i - n - 1) && Fits(s, n + 1 + (i - n - 1)); }
      }
    }
  }

  lemma {:induction false} JoinedShape(parts: seq<seq<byte>>)
    requires parts != [] && forall part <- parts :: DOT !in part
    ensures (forall part <- parts :: SegmentOk(part)) <==> NameShape(Join(parts, DOT))
    decreases |parts|
  {
    hide SegmentOk, NameShape;
    SegmentShape(parts[0]);
    if |parts| > 1 {
      JoinedShape(parts[1..]);
      ShapeOfFirst(parts[0], Join(parts[1..], DOT));
      assert forall part <- parts :: part == parts[0] || part in parts[1..];
    }
  }

  // The accepted names, by their characters.
  lemma NameIsNamespaced(name: seq<byte>)
    ensures NameOk(name) <==> |name| <= MAX_NAME_BYTES && DOT in name && NameShape(name)
  {
    hide SegmentOk;
    SplitIsUndone(name, DOT);
    JoinedShape(Split(name, DOT));
  }

  // The parts of a contract identifier.
  ghost predicate ContractParts(id: seq<byte>, name: seq<byte>, version: seq<byte>) {
    && id == Ascii("plenora-") + name + Ascii("-v") + version
    && name != [] && (forall b <- name :: Lower(b) || Digit(b) || b == 45)
    && version != [] && AllDigits(version) && version[0] != 48
  }

  lemma ContractMarks()
    ensures |Ascii("plenora-")| == 8 && Ascii("-v") == [45, 118]
  {
  }

  lemma {:induction false} LastMarkIsLast(s: seq<byte>)
    ensures LastMark(s).Some? ==> MarkAt(s, LastMark(s).value)
    ensures forall i :: MarkAt(s, i) ==> LastMark(s).Some? && i <= LastMark(s).value
  {
    if |s| >= 2 && !MarkAt(s, |s| - 2) {
      var front := s[..|s| - 1];
      LastMarkIsLast(front);
      assert forall i :: 0 <= i < |s| - 2 ==> (MarkAt(s, i) <==> MarkAt(front, i));
    }
  }

  lemma LastMarkIs(name: seq<byte>, version: seq<byte>)
    requires AllDigits(version)
    ensures LastMark(name + [45, 118] + version) == Some(|name|)
  {
    hide LastMark;
    var s, n := name + [45, 118] + version, |name|;
    assert s[n] == 45 && s[n + 1] == 118;
    assert MarkAt(s, n);
    LastMarkIsLast(s);
  }

  lemma CutAtMark(prefix: seq<byte>, rest: seq<byte>, mark: nat)
    requires MarkAt(rest, mark)
    ensures prefix + rest == prefix + rest[..mark] + [45, 118] + rest[mark + 2..]
  {
    assert rest == rest[..mark] + ([45, 118] + rest[mark + 2..]);
    Associative(prefix, rest[..mark], [45, 118] + rest[mark + 2..]);
    Associative(prefix + rest[..mark], [45, 118], rest[mark + 2..]);
  }

  lemma ContractHasParts(id: seq<byte>)
    requires ContractOk(id)
    ensures exists name, version :: ContractParts(id, name, version)
  {
    hide AllDigits, LastMark, Ascii, MarkAt;
    ContractMarks();
    var prefix, rest := Ascii("plenora-"), id[8..];
    LastMarkIsLast(rest);
    var mark := LastMark(rest).value;
    assert id == prefix + rest;
    CutAtMark(prefix, rest, mark);
    assert ContractParts(id, rest[..mark], rest[mark + 2..]);
  }

  lemma PartsMakeContract(id: seq<byte>, name: seq<byte>, version: seq<byte>)
    requires ContractParts(id, name, version) && |id| <= MAX_NAME_BYTES
    ensures ContractOk(id)
  {
    ContractMarks();
    hide LastMark, Ascii;
    var rest := id[8..];
    LastMarkIs(name, version);
    assert rest == name + [45, 118] + version && id[..8] == Ascii("plenora-");
    assert rest[..|name|] == name && rest[|name| + 2..] == version;
  }

  // The accepted contract identifiers are exactly those made of such parts.
  lemma ContractIsMadeOfParts(id: seq<byte>)
    ensures ContractOk(id) <==> |id| <= MAX_NAME_BYTES && exists name, version :: ContractParts(id, name, version)
  {
    if ContractOk(id) { ContractHasParts(id); }
    hide ContractOk, ContractParts;
    if |id| <= MAX_NAME_BYTES && exists name, version :: ContractParts(id, name, version) {
      var name, version :| ContractParts(id, name, version);
      PartsMakeContract(id, name, version);
    }
  }

  // What the identifier types admit; their texts are UTF-8 like every string.
  ghost predicate RoutingOk(r: Routing) {
    && NameOk(r.name) && NameOk(r.operation) && ContractOk(r.contract)
    && Utf8(r.name) && Utf8(r.operation) && Utf8(r.contract)
    && 0 < r.version < U16_LIMIT && 0 < r.operationVersion < U16_LIMIT
  }

  // ---------------------------------------------------------------- encoding

  // The five reserved entries, in the order they are written.
  function Field(r: Routing, n: nat): (seq<byte>, seq<byte>)
    requires n < 5
  {
    match n
    case 0 => (NameKey(), r.name)
    case 1 => (VersionKey(), Decimal(r.version))
    case 2 => (OperationKey(), r.operation)
    case 3 => (OperationVersionKey(), Decimal(r.operationVersion))
    case 4 => (ContractKey(), r.contract)
  }

  // Headers after the first n reserved entries were written.
  function Routed(headers: Entries, r: Routing, n: nat): Entries
    requires n <= 5
  {
    if n == 0 then headers else Routed(headers, r, n - 1)[Field(r, n - 1).0 := Field(r, n - 1).1]
  }

  ghost predicate Encodable(request: Request) {
    forall n :: 1 <= n <= 5 ==> Valid(Routed(request.input.headers, request.routing, n))
  }

  function Encoded(request: Request): Message {
    request.input.(headers := Routed(request.input.headers, request.routing, 5))
  }

  // Encoding succeeds exactly when the headers stay within bounds after each of the five entries.
  method Encode(request: Request) returns (r: Result<Message, CodecError>)
    requires Valid(request.input.headers)
    ensures r.Ok? <==> Encodable(request)
    ensures r.Ok? ==> r.value == Encoded(request)
    ensures r.Err? ==> r.error.OverBounds?
  {
    hide Valid, Decimal, NameKey, VersionKey, OperationKey, OperationVersionKey, ContractKey;
    var routing := request.routing;
    ghost var start := request.input.headers;
    RoutedInOrder(start, routing);
    EncodableIsEachStep(request);
    hide Routed, Encodable;
    var headers := new MessageMetadata.From(request.input.headers);
    var error := InsertText(headers, NameKey(), routing.name);
    if error.Some? { return Err(error.value); }
    error := InsertText(headers, VersionKey(), Decimal(routing.version));
    if error.Some? { return Err(error.value); }
    error := InsertText(headers, OperationKey(), routing.operation);
    if error.Some? { return Err(error.value); }
    error := InsertText(headers, OperationVersionKey(), Decimal(routing.operationVersion));
    if error.Some? { return Err(error.value); }
    error := InsertText(headers, ContractKey(), routing.contract);
    if error.Some? { return Err(error.value); }
    return Ok(request.input.(headers := headers.entries));
  }

  // Inserts one reserved entry; a refusal becomes the codec's error.
  method InsertText(headers: MessageMetadata, key: seq<byte>, value: seq<byte>) returns (error: Option<CodecError>)
    requires Valid(headers.entries)
    modifies headers
    ensures Valid(headers.entries)
    ensures error.None? <==> Valid(old(headers.entries)[key := value])
    ensures error.None? ==> headers.entries == old(headers.entries)[key := value]
    ensures error.Some? ==> error.value.OverBounds?
  {
    hide Valid, Inserted;
    var inserted := headers.Insert(key, value);
    if inserted.Err? { return Some(OverBounds(inserted.error)); }
    return None;
  }

  lemma EncodableIsEachStep(request: Request)
    ensures Encodable(request) <==>
            var h, r := request.input.headers, request.routing;
            && Valid(Routed(h, r, 1)) && Valid(Routed(h, r, 2)) && Valid(Routed(h, r, 3))
            && Valid(Routed(h, r, 4)) && Valid(Routed(h, r, 5))
  {
    hide Valid, Routed;
  }

  lemma RoutedInOrder(headers: Entries, r: Routing)
    ensures Routed(headers, r, 1) == headers[NameKey() := r.name]
    ensures Routed(headers, r, 2) == Routed(headers, r, 1)[VersionKey() := Decimal(r.version)]
    ensures Routed(headers, r, 3) == Routed(headers, r, 2)[OperationKey() := r.operation]
    ensures Routed(headers, r, 4) == Routed(headers, r, 3)[OperationVersionKey() := Decimal(r.operationVersion)]
    ensures Routed(headers, r, 5) == Routed(headers, r, 4)[ContractKey() := r.contract]
  {
    hide NameKey, VersionKey, OperationKey, OperationVersionKey, ContractKey, Decimal;
  }

  // ---------------------------------------------------------------- decoding

  function RequiredText(headers: Entries, key: seq<byte>): Result<seq<byte>, CodecError> {
    if key !in headers then Err(Missing(key))
    else if !Utf8(headers[key]) then Err(InvalidEncoding(key))
    else Ok(headers[key])
  }

  function RequiredVersion(headers: Entries, key: seq<byte>): Result<nat, CodecError> {
    match RequiredText(headers, key)
    case Err(error) => Err(error)
    case Ok(text) => if ParseU16(text).Some? then Ok(ParseU16(text).value) else Err(InvalidVersion(key))
  }

  // The identifiers are checked after every field was found and both versions were parsed.
  function Checked(r: Routing): Result<Routing, CodecError> {
    if !NameOk(r.name) then Err(InvalidIdentifier(NameKey()))
    else if r.version == 0 then Err(InvalidIdentifier(VersionKey()))
    else if !NameOk(r.operation) then Err(InvalidIdentifier(OperationKey()))
    else if !ContractOk(r.contract) then Err(InvalidIdentifier(ContractKey()))
    else Ok(r)
  }

  function Parsed(headers: Entries): Result<Routing, CodecError> {
    var name := RequiredText(headers, NameKey());
    if name.Err? then Err(name.error) else
    var version := RequiredVersion(headers, VersionKey());
    if version.Err? then Err(version.error) else
    var operation := RequiredText(headers, OperationKey());
    if operation.Err? then Err(operation.error) else
    var operationVersion := RequiredVersion(headers, OperationVersionKey());
    if operationVersion.Err? then Err(operationVersion.error) else
    if operationVersion.value == 0 then Err(InvalidVersion(OperationVersionKey())) else
    var contract := RequiredText(headers, ContractKey());
    if contract.Err? then Err(contract.error) else
    Checked(Routing(name.value, version.value, operation.value, operationVersion.value, contract.value))
  }

  function Reserved(): set<seq<byte>> {
    {NameKey(), VersionKey(), OperationKey(), OperationVersionKey(), ContractKey()}
  }

  function Decoded(message: Message): Result<Request, CodecError> {
    match Parsed(message.headers)
    case Err(error) => Err(error)
    case Ok(routing) => Ok(Request(routing, message.(headers := message.headers - Reserved())))
  }

  // A message is accepted exactly when all five entries are there as text, both versions are positive
  // 16-bit numbers, and the three identifiers are well formed; the routing is then what they say.
  lemma DecodesExactly(message: Message)
    ensures var h := message.headers;
            Decoded(message).Ok? <==>
            && (forall key <- Reserved() :: key in h && Utf8(h[key]))
            && NameOk(h[NameKey()]) && NameOk(h[OperationKey()]) && ContractOk(h[ContractKey()])
            && ParseU16(h[VersionKey()]).Some? && ParseU16(h[VersionKey()]).value > 0
            && ParseU16(h[OperationVersionKey()]).Some? && ParseU16(h[OperationVersionKey()]).value > 0
    ensures Decoded(message).Ok? ==>
              var h, r := message.headers, Decoded(message).value;
              && r.routing == Routing(h[NameKey()], ParseU16(h[VersionKey()]).value, h[OperationKey()],
                                      ParseU16(h[OperationVersionKey()]).value, h[ContractKey()])
              && r.input == message.(headers := h - Reserved())
  {
    hide NameKey, VersionKey, OperationKey, OperationVersionKey, ContractKey;
    hide Utf8, NameOk, ContractOk, ParseU16;
  }

  // A refusal names a field that breaks the rule it is refused for, and nothing is missing, or no
  // text, or no number, before it is refused for an identifier.
  lemma DecodeErrors(message: Message)
    requires Decoded(message).Err?
    ensures var h := message.headers;
            match Decoded(message).error
            case Missing(key) => key in Reserved() && key !in h
            case InvalidEncoding(key) => key in Reserved() && key in h && !Utf8(h[key])
            case InvalidVersion(key) =>
              && (key == VersionKey() || key == OperationVersionKey()) && key in h
              && (ParseU16(h[key]).None? || (key == OperationVersionKey() && ParseU16(h[key]) == Some(0)))
            case InvalidIdentifier(key) =>
              && (forall k <- Reserved() :: k in h && Utf8(h[k]))
              && ((key == NameKey() && !NameOk(h[key])) || (key == VersionKey() && ParseU16(h[key]) == Some(0))
                  || (key == OperationKey() && !NameOk(h[key])) || (key == ContractKey() && !ContractOk(h[key])))
            case OverBounds(_) => false
  {
    hide NameKey, VersionKey, OperationKey, OperationVersionKey, ContractKey;
    hide Utf8, NameOk, ContractOk, ParseU16;
  }

  lemma RemovedOneByOne(h: Entries)
    ensures h - {NameKey()} - {VersionKey()} - {OperationKey()} - {OperationVersionKey()} - {ContractKey()}
         == h - Reserved()
  {
    hide NameKey, VersionKey, OperationKey, OperationVersionKey, ContractKey;
  }

  method Decode(message: Message) returns (r: Result<Request, CodecError>)
    requires Valid(message.headers)
    ensures r == Decoded(message)
    ensures r.Ok? ==> Valid(r.value.input.headers)
  {
    hide Valid, Parsed, NameKey, VersionKey, OperationKey, OperationVersionKey, ContractKey, Reserved;
    var routing := Parsed(message.headers);
    if routing.Err? { return Err(routing.error); }
    var headers := new MessageMetadata.From(message.headers);
    var _ := headers.Remove(NameKey());
    var _ := headers.Remove(VersionKey());
    var _ := headers.Remove(OperationKey());
    var _ := headers.Remove(OperationVersionKey());
    var _ := headers.Remove(ContractKey());
    RemovedOneByOne(message.headers);
    return Ok(Request(routing.value, message.(headers := headers.entries)));
  }

  // ---------------------------------------------------------------- the two round trips

  // What the five entries hold after encoding, and that nothing else changed.
  lemma RoutedFields(headers: Entries, r: Routing)
    ensures var after := Routed(headers, r, 5);
            && after.Keys == headers.Keys + Reserved()
            && (forall key <- headers :: key !in Reserved() ==> after[key] == headers[key])
            && after[NameKey()] == r.name && after[VersionKey()] == Decimal(r.version)
            && after[OperationKey()] == r.operation
            && after[OperationVersionKey()] == Decimal(r.operationVersion)
            && after[ContractKey()] == r.contract
  {
    ReservedKeysAreDistinct();
    hide NameKey, VersionKey, OperationKey, OperationVersionKey, ContractKey, Decimal;
    RoutedInOrder(headers, r);
    hide Routed;
  }

  // Decoding what was encoded gives the request back, its input stripped of the reserved entries only.
  lemma DecodeAfterEncode(request: Request)
    requires RoutingOk(request.routing)
    ensures Decoded(Encoded(request)) ==
            Ok(request.(input := request.input.(headers := request.input.headers - Reserved())))
  {
    var r := request.routing;
    RoutedFields(request.input.headers, r);
    DecimalParses(r.version);
    DecimalParses(r.operationVersion);
    hide NameKey, VersionKey, OperationKey, OperationVersionKey, ContractKey;
    hide Decimal, ParseU16, Utf8, NameOk, ContractOk, Routed;
    var after := Encoded(request).headers;
    assert after - Reserved() == request.input.headers - Reserved();
  }

  lemma ParsedIsOk(headers: Entries)
    requires Parsed(headers).Ok?
    ensures RoutingOk(Parsed(headers).value) && Reserved() <= headers.Keys
    ensures var r := Parsed(headers).value;
            && headers[NameKey()] == r.name && headers[OperationKey()] == r.operation
            && headers[ContractKey()] == r.contract
            && ParseU16(headers[VersionKey()]) == Some(r.version)
            && ParseU16(headers[OperationVersionKey()]) == Some(r.operationVersion)
  {
    hide NameKey, VersionKey, OperationKey, OperationVersionKey, ContractKey, Utf8, NameOk, ContractOk, AllDigits;
  }

  // Writing back what was parsed never makes an entry longer.
  lemma FieldIsNoLonger(headers: Entries, n: nat)
    requires Parsed(headers).Ok? && n < 5
    ensures var (key, value) := Field(Parsed(headers).value, n); key in headers && |value| <= |headers[key]|
  {
    ParsedIsOk(headers);
    ParsedVersionIsShortest(headers[VersionKey()]);
    ParsedVersionIsShortest(headers[OperationVersionKey()]);
    hide NameKey, VersionKey, OperationKey, OperationVersionKey, ContractKey, Decimal, ParseU16, Parsed, RoutingOk;
  }

  lemma {:induction false} RoutedIsWithin(headers: Entries, n: nat)
    requires Parsed(headers).Ok? && n <= 5
    ensures Within(Routed(headers - Reserved(), Parsed(headers).value, n), headers)
  {
    hide Parsed, Reserved, Field;
    if n > 0 {
      RoutedIsWithin(headers, n - 1);
      FieldIsNoLonger(headers, n - 1);
    }
  }

  // Whatever message decodes can be encoded again within bounds, is no larger than it was, and
  // decodes to the same request.
  lemma DecodedCanBeEncoded(message: Message)
    requires Valid(message.headers) && Decoded(message).Ok?
    ensures var request := Decoded(message).value;
            && RoutingOk(request.routing) && Valid(request.input.headers) && Encodable(request)
            && TotalBytes(Encoded(request).headers) <= TotalBytes(message.headers)
            && Decoded(Encoded(request)) == Decoded(message)
  {
    var request := Decoded(message).value;
    ParsedIsOk(message.headers);
    DecodeAfterEncode(request);
    hide Parsed, Reserved, Field, Routed, Valid, RoutingOk;
    forall n | 0 <= n <= 5
      ensures Valid(Routed(request.input.headers, request.routing, n))
      ensures TotalBytes(Routed(request.input.headers, request.routing, n)) <= TotalBytes(message.headers)
    {
      RoutedIsWithin(message.headers, n);
      PartIsValid(Routed(request.input.headers, request.routing, n), message.headers);
      TotalOfPart(Routed(request.input.headers, request.routing, n), message.headers);
    }
    assert Valid(Routed(request.input.headers, request.routing, 0));
    StrippedTwice(message.headers);
  }

  lemma StrippedTwice(headers: Entries)
    ensures headers - Reserved() - Reserved() == headers - Reserved()
  {
    hide Reserved;
  }

  // Re-encoding gives back the very message exactly when both versions were written canonically.
  lemma ReencodesToItselfExactly(message: Message)
    requires Decoded(message).Ok?
    ensures var request := Decoded(message).value;
            Encoded(request) == message <==>
            && message.headers[VersionKey()] == Decimal(request.routing.version)
            && message.headers[OperationVersionKey()] == Decimal(request.routing.operationVersion)
  {
    var request := Decoded(message).value;
    ParsedIsOk(message.headers);
    RoutedFields(request.input.headers, request.routing);
    hide NameKey, VersionKey, OperationKey, OperationVersionKey, ContractKey;
    hide Decimal, ParseU16, Parsed, Routed, RoutingOk;
    var after := Encoded(request).headers;
    assert after.Keys == message.headers.Keys;
    if message.headers[VersionKey()] == Decimal(request.routing.version)
       && message.headers[OperationVersionKey()] == Decimal(request.routing.operationVersion) {
      assert after == message.headers;
    }
  }

  // ---------------------------------------------------------------- when encoding succeeds

  lemma FieldKeys(r: Routing, n: nat)
    requires n < 5
    ensures Field(r, n).0 in Reserved()
    ensures forall m :: 0 <= m < n ==> Field(r, m).0 != Field(r, n).0
  {
    ReservedKeysAreDistinct();
    hide NameKey, VersionKey, OperationKey, OperationVersionKey, ContractKey, Decimal;
  }

  // Until a reserved entry is written it is as the input has it.
  lemma {:induction false} UntouchedYet(h: Entries, r: Routing, n: nat, i: nat)
    requires n <= i < 5
    ensures var key := Field(r, i).0; key in Routed(h, r, n) <==> key in h
    ensures var key := Field(r, i).0; key in h ==> Routed(h, r, n)[key] == h[key]
  {
    hide Field, Reserved;
    if n > 0 {
      UntouchedYet(h, r, n - 1, i);
      FieldKeys(r, i);
      assert Field(r, n - 1).0 != Field(r, i).0;
    }
  }

  // Bytes by which writing the i-th reserved entry, or the first n of them, changes the headers.
  function Growth(h: Entries, r: Routing, i: nat): int
    requires i < 5
  {
    var (key, value) := Field(r, i);
    if key in h then |value| - |h[key]| else |key| + |value|
  }

  function GrowthOfFirst(h: Entries, r: Routing, n: nat): int
    requires n <= 5
  {
    if n == 0 then 0 else GrowthOfFirst(h, r, n - 1) + Growth(h, r, n - 1)
  }

  lemma {:induction false} SizeOfRouted(h: Entries, r: Routing, n: nat)
    requires n <= 5
    ensures TotalBytes(Routed(h, r, n)) == TotalBytes(h) + GrowthOfFirst(h, r, n)
  {
    hide Field, TotalBytes;
    if n > 0 {
      SizeOfRouted(h, r, n - 1);
      UntouchedYet(h, r, n - 1, n - 1);
      TotalOfUpdate(Routed(h, r, n - 1), Field(r, n - 1).0, Field(r, n - 1).1);
    }
  }

  lemma FieldIsValid(r: Routing, i: nat)
    requires RoutingOk(r) && i < 5
    ensures KeyError(Field(r, i).0) == None && |Field(r, i).1| <= MAX_NAME_BYTES
  {
    ReservedKeysAreValid();
    VersionLength(r.version);
    VersionLength(r.operationVersion);
    hide KeyError, NameKey, VersionKey, OperationKey, OperationVersionKey, ContractKey, Decimal, Split, LastMark, Utf8;
  }

  lemma VersionLength(n: nat)
    requires n < U16_LIMIT
    ensures |Decimal(n)| <= 5
  {
    assert PowerOfTen(5) == 100000;
    DecimalLength(n, 5);
  }

  lemma NameKeyText()
    ensures |NameKey()| == 23 && NameKey()[7] == NameKey()[18] == DOT
    ensures forall i :: 0 <= i < 23 && i != 7 && i != 18 ==> Lower(NameKey()[i])
  {
  }

  lemma VersionKeyText()
    ensures |VersionKey()| == 26 && VersionKey()[7] == VersionKey()[18] == DOT
    ensures forall i :: 0 <= i < 26 && i != 7 && i != 18 ==> Lower(VersionKey()[i])
  {
  }

  lemma OperationKeyText()
    ensures |OperationKey()| == 28 && OperationKey()[7] == OperationKey()[18] == DOT
    ensures forall i :: 0 <= i < 28 && i != 7 && i != 18 ==> Lower(OperationKey()[i])
  {
  }

  lemma OperationVersionKeyText()
    ensures |OperationVersionKey()| == 25 && OperationVersionKey()[7] == OperationVersionKey()[17] == DOT
    ensures forall i :: 0 <= i < 25 && i != 7 && i != 17 ==> Lower(OperationVersionKey()[i])
  {
  }

  lemma ContractKeyText()
    ensures |ContractKey()| == 22 && ContractKey()[7] == ContractKey()[13] == DOT
    ensures forall i :: 0 <= i < 22 && i != 7 && i != 13 ==> Lower(ContractKey()[i])
  {
  }

  lemma ReservedKeysAreValid()
    ensures KeyError(NameKey()) == None && KeyError(VersionKey()) == None && KeyError(OperationKey()) == None
    ensures KeyError(OperationVersionKey()) == None && KeyError(ContractKey()) == None
  {
    hide KeyError, NameKey, VersionKey, OperationKey, OperationVersionKey, ContractKey;
    NameKeyText();
    ThreeSegmentsAreValid(NameKey(), 7, 18);
    VersionKeyText();
    ThreeSegmentsAreValid(VersionKey(), 7, 18);
    OperationKeyText();
    ThreeSegmentsAreValid(OperationKey(), 7, 18);
    OperationVersionKeyText();
    ThreeSegmentsAreValid(OperationVersionKey(), 7, 17);
    ContractKeyText();
    ThreeSegmentsAreValid(ContractKey(), 7, 13);
  }

  lemma {:induction false} RoutedEntriesAreValid(h: Entries, r: Routing, n: nat)
    requires Valid(h) && RoutingOk(r) && n <= 5
    ensures forall key <- Routed(h, r, n) :: KeyError(key) == None && |Routed(h, r, n)[key]| <= MAX_VALUE_BYTES
  {
    hide Field, RoutingOk, KeyError;
    if n > 0 {
      RoutedEntriesAreValid(h, r, n - 1);
      FieldIsValid(r, n - 1);
    }
  }

  // The headers after n entries are within bounds exactly when their count and their size are.
  lemma RoutedIsValidExactly(h: Entries, r: Routing, n: nat)
    requires Valid(h) && RoutingOk(r) && n <= 5
    ensures Valid(Routed(h, r, n)) <==>
            |Routed(h, r, n)| <= MAX_ENTRIES && TotalBytes(h) + GrowthOfFirst(h, r, n) <= MAX_TOTAL_BYTES
  {
    RoutedEntriesAreValid(h, r, n);
    SizeOfRouted(h, r, n);
    hide Routed, GrowthOfFirst, RoutingOk, KeyError, TotalBytes;
  }

  lemma {:induction false} EntriesOnlyGrow(h: Entries, r: Routing, n: nat)
    requires n <= 5
    ensures Routed(h, r, n).Keys <= Routed(h, r, 5).Keys && |Routed(h, r, n)| <= |Routed(h, r, 5)|
    decreases 5 - n
  {
    hide Field;
    if n < 5 {
      EntriesOnlyGrow(h, r, n + 1);
      assert Routed(h, r, n + 1).Keys == Routed(h, r, n).Keys + {Field(r, n).0};
    }
    SubsetCardinality(Routed(h, r, n).Keys, Routed(h, r, 5).Keys);
    assert |Routed(h, r, n)| == |Routed(h, r, n).Keys| && |Routed(h, r, 5)| == |Routed(h, r, 5).Keys|;
  }

  lemma FinishedCount(h: Entries, r: Routing)
    ensures |Routed(h, r, 5)| == |h.Keys + Reserved()|
  {
    RoutedFields(h, r);
    hide Routed, Reserved;
    assert |Routed(h, r, 5)| == |Routed(h, r, 5).Keys|;
  }

  // Encoding a valid request succeeds exactly when there is room for the reserved entries that are
  // missing, and after each of the five is written, in order, the input's size plus what the entries
  // written so far add to it, or take from it, is within the limit.
  lemma EncodableExactly(request: Request)
    requires Valid(request.input.headers) && RoutingOk(request.routing)
    ensures var h, r := request.input.headers, request.routing;
            Encodable(request) <==>
            && |h.Keys + Reserved()| <= MAX_ENTRIES
            && forall n :: 1 <= n <= 5 ==> TotalBytes(h) + GrowthOfFirst(h, r, n) <= MAX_TOTAL_BYTES
  {
    var h, r := request.input.headers, request.routing;
    hide Valid, RoutingOk, Routed, Reserved, GrowthOfFirst, TotalBytes;
    FinishedCount(h, r);
    if Encodable(request) {
      RoutedIsValidExactly(h, r, 5);
      forall n | 1 <= n <= 5 ensures TotalBytes(h) + GrowthOfFirst(h, r, n) <= MAX_TOTAL_BYTES {
        RoutedIsValidExactly(h, r, n);
      }
    } else {
      var n :| 1 <= n <= 5 && !Valid(Routed(h, r, n));
      RoutedIsValidExactly(h, r, n);
      EntriesOnlyGrow(h, r, n);
    }
  }

  // The finished headers alone decide whenever no reserved entry of the input is longer than its
  // replacement, in particular when the input has none.
  lemma EncodableExactlyWhenItFits(request: Request)
    requires var h, r := request.input.headers, request.routing;
             forall i :: 0 <= i < 5 && Field(r, i).0 in h ==> |h[Field(r, i).0]| <= |Field(r, i).1|
    ensures Encodable(request) <==> Valid(Encoded(request).headers)
  {
    var h, r := request.input.headers, request.routing;
    if Valid(Routed(h, r, 5)) {
      hide Routed, Valid, Field;
      forall n | 1 <= n <= 5 ensures Valid(Routed(h, r, n)) {
        EarlierIsWithin(h, r, n);
        PartIsValid(Routed(h, r, n), Routed(h, r, 5));
      }
    }
  }

  lemma {:induction false} EarlierIsWithin(h: Entries, r: Routing, n: nat)
    requires forall i :: 0 <= i < 5 && Field(r, i).0 in h ==> |h[Field(r, i).0]| <= |Field(r, i).1|
    requires n <= 5
    ensures Within(Routed(h, r, n), Routed(h, r, 5))
    decreases 5 - n
  {
    hide Field;
    if n < 5 {
      EarlierIsWithin(h, r, n + 1);
      UntouchedYet(h, r, n, n);
      assert Within(Routed(h, r, n), Routed(h, r, n + 1));
    }
  }

  // ---------------------------------------------------------------- when the finished headers do not decide

  function Filler(n: nat): seq<byte> {
    seq(n, _ => 0)
  }

  // Headers at the size limit, a quarter of it in an old input contract.
  function CrowdedHeaders(): Entries {
    map[][ContractKey() := Filler(8161)][Ascii("a.b") := Filler(8192)][Ascii("a.c") := Filler(8192)]
      [Ascii("a.d") := Filler(8192)]
  }

  lemma ShortKeyIsValid(c: char)
    requires 'b' <= c <= 'd'
    ensures KeyError(Ascii(['a', '.', c])) == None && |Ascii(['a', '.', c])| == 3
    ensures Ascii(['a', '.', c])[2] == c as int
  {
    var key := Ascii(['a', '.', c]);
    KeyIsNamespaced(key);
    hide KeyError;
    assert key[1] in key;
  }

  // One more entry under a new key.
  lemma WithOneMore(h: Entries, key: seq<byte>, value: seq<byte>)
    requires Valid(h) && key !in h && KeyError(key) == None && |value| <= MAX_VALUE_BYTES
    requires |h| < MAX_ENTRIES && TotalBytes(h) + |key| + |value| <= MAX_TOTAL_BYTES
    ensures var more := h[key := value];
            && Valid(more) && TotalBytes(more) == TotalBytes(h) + |key| + |value|
            && |more| == |h| + 1 && more.Keys == h.Keys + {key}
  {
    hide KeyError, TotalBytes;
    TotalOfUpdate(h, key, value);
    assert h[key := value].Keys == h.Keys + {key};
  }

  lemma NothingIsValid()
    ensures Valid(map[]) && TotalBytes(map[]) == 0
  {
  }

  lemma CrowdedIsFull()
    ensures var h := CrowdedHeaders();
            && TotalBytes(h) == MAX_TOTAL_BYTES && |h| == 4 && Valid(h)
            && h.Keys == {ContractKey(), Ascii("a.b"), Ascii("a.c"), Ascii("a.d")}
            && |h[ContractKey()]| == 8161
  {
    hide TotalBytes, KeyError, Ascii, ContractKey, Valid, Filler, CrowdedHeaders;
    CrowdedIs();
    CrowdedKeys();
    NothingIsValid();
    var a, b, c, d := ContractKey(), Ascii("a.b"), Ascii("a.c"), Ascii("a.d");
    WithOneMore(map[], a, Filler(8161));
    var h1: Entries := map[][a := Filler(8161)];
    WithOneMore(h1, b, Filler(8192));
    var h2 := h1[b := Filler(8192)];
    WithOneMore(h2, c, Filler(8192));
    var h3 := h2[c := Filler(8192)];
    WithOneMore(h3, d, Filler(8192));
  }

  lemma CrowdedIs()
    ensures CrowdedHeaders() ==
            map[][ContractKey() := Filler(8161)][Ascii("a.b") := Filler(8192)][Ascii("a.c") := Filler(8192)]
              [Ascii("a.d") := Filler(8192)]
    ensures |Filler(8161)| == 8161 && |Filler(8192)| == 8192
  {
  }

  lemma CrowdedKeys()
    ensures KeyError(ContractKey()) == None && |ContractKey()| == 22
    ensures KeyError(Ascii("a.b")) == None && KeyError(Ascii("a.c")) == None && KeyError(Ascii("a.d")) == None
    ensures |Ascii("a.b")| == |Ascii("a.c")| == |Ascii("a.d")| == 3
    ensures Ascii("a.b") != Ascii("a.c") && Ascii("a.b") != Ascii("a.d") && Ascii("a.c") != Ascii("a.d")
  {
    ReservedKeysAreDistinct();
    ReservedKeysAreValid();
    ShortKeyIsValid('b');
    ShortKeyIsValid('c');
    ShortKeyIsValid('d');
    hide KeyError, ContractKey, NameKey, VersionKey, OperationKey, OperationVersionKey;
    assert Ascii("a.b")[2] == 98 && Ascii("a.c")[2] == 99 && Ascii("a.d")[2] == 100;
  }

  // Of the reserved keys, only the contract's is among them.
  lemma CrowdedReserved()
    ensures NameKey() !in CrowdedHeaders() && VersionKey() !in CrowdedHeaders() && OperationKey() !in CrowdedHeaders()
    ensures OperationVersionKey() !in CrowdedHeaders() && ContractKey() in CrowdedHeaders()
  {
    hide *;
    CrowdedIsFull();
    CrowdedKeys();
    ReservedKeysAreDistinct();
  }

  // The finished headers would fit, thousands of bytes below the limit, but writing the name first
  // overflows while the old contract is still in place: encoding fails for every routing.
  lemma FinishedHeadersDoNotAlwaysDecide(r: Routing, contentType: seq<byte>, payload: seq<byte>)
    requires RoutingOk(r)
    ensures var request := Request(r, Message(contentType, CrowdedHeaders(), payload));
            && Valid(request.input.headers) && !Encodable(request)
            && Valid(Encoded(request).headers) && TotalBytes(Encoded(request).headers) < MAX_TOTAL_BYTES - 7000
  {
    var h := CrowdedHeaders();
    var request := Request(r, Message(contentType, h, payload));
    CrowdedIsFull();
    ReservedKeysAreDistinct();
    CrowdedGrowth(r);
    hide CrowdedHeaders, Routed, RoutingOk, GrowthOfFirst, TotalBytes, Valid, Reserved;
    EncodableExactly(request);
    RoutedIsValidExactly(h, r, 5);
    SizeOfRouted(h, r, 5);
    FinishedCount(h, r);
    UnionBound(h.Keys, Reserved());
    ReservedCount();
  }

  lemma ReservedCount()
    ensures |Reserved()| <= 5
  {
    hide NameKey, VersionKey, OperationKey, OperationVersionKey, ContractKey;
  }

  lemma UnionBound(a: set<seq<byte>>, b: set<seq<byte>>)
    ensures |a + b| <= |a| + |b|
  {
    assert a + b == a + (b - a);
    SubsetCardinality(b - a, b);
  }

  lemma CrowdedGrowths(r: Routing)
    requires RoutingOk(r)
    ensures var h := CrowdedHeaders();
            && 0 < Growth(h, r, 0) <= 151 && Growth(h, r, 1) <= 31 && Growth(h, r, 2) <= 156
            && Growth(h, r, 3) <= 30 && Growth(h, r, 4) <= 128 - 8161
  {
    CrowdedIsFull();
    CrowdedReserved();
    ReservedKeysAreDistinct();
    VersionLength(r.version);
    VersionLength(r.operationVersion);
    hide CrowdedHeaders, NameKey, VersionKey, OperationKey, OperationVersionKey, ContractKey;
    hide Decimal, Valid, TotalBytes, Split, LastMark, Utf8, AllDigits;
  }

  lemma GrowthIsSum(h: Entries, r: Routing)
    ensures GrowthOfFirst(h, r, 1) == Growth(h, r, 0)
    ensures GrowthOfFirst(h, r, 5) ==
            Growth(h, r, 0) + Growth(h, r, 1) + Growth(h, r, 2) + Growth(h, r, 3) + Growth(h, r, 4)
  {
    hide Growth;
    assert GrowthOfFirst(h, r, 2) == GrowthOfFirst(h, r, 1) + Growth(h, r, 1);
    assert GrowthOfFirst(h, r, 4) == GrowthOfFirst(h, r, 3) + Growth(h, r, 3);
  }

  lemma CrowdedGrowth(r: Routing)
    requires RoutingOk(r)
    ensures GrowthOfFirst(CrowdedHeaders(), r, 1) > 0
    ensures GrowthOfFirst(CrowdedHeaders(), r, 5) < -7000
  {
    hide CrowdedHeaders, Growth, GrowthOfFirst, RoutingOk;
    CrowdedGrowths(r);
    GrowthIsSum(CrowdedHeaders(), r);
  }

  function SampleRouting(): Routing {
    Routing(Ascii("a.b"), 1, Ascii("a.b"), 1, Ascii("plenora-a-v1"))
  }

  lemma SampleNameIsOk()
    ensures NameOk(Ascii("a.b"))
  {
    var name := Ascii("a.b");
    assert name == [97, 46, 98];
    assert [98][1..] == [] && [46, 98][1..] == [98] && name[1..] == [46, 98];
    assert Split([], DOT) == [[]];
    assert [98] + [] == [98] && [97] + [] == [97];
    assert Split([98], DOT) == [[98]];
    assert Split([46, 98], DOT) == [[], [98]];
    assert Split(name, DOT) == [[97], [98]];
  }

  lemma SampleContractIsOk()
    ensures ContractOk(Ascii("plenora-a-v1"))
  {
    var id, prefix := Ascii("plenora-a-v1"), Ascii("plenora-");
    var rest := id[8..];
    assert |prefix| == 8 && prefix <= id;
    assert rest == [97, 45, 118, 49];
    assert rest[..3] == [97, 45, 118];
    assert LastMark(rest) == Some(1);
    assert rest[..1] == [97] && rest[3..] == [49];
  }

  lemma SampleRoutingIsOk()
    ensures RoutingOk(SampleRouting())
  {
    SampleNameIsOk();
    SampleContractIsOk();
    hide NameOk, ContractOk;
    AsciiIsUtf8(Ascii("a.b"));
    AsciiIsUtf8(Ascii("plenora-a-v1"));
  }

  // One such request: valid headers, valid identifiers, finished headers that fit, and no encoding.
  lemma FailingInput()
    ensures var request := Request(SampleRouting(), Message([], CrowdedHeaders(), []));
            && RoutingOk(request.routing) && Valid(request.input.headers)
            && Valid(Encoded(request).headers) && !Encodable(request)
  {
    hide *;
    SampleRoutingIsOk();
    FinishedHeadersDoNotAlwaysDecide(SampleRouting(), [], []);
  }
}
