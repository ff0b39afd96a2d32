// Carrying a content type and portable metadata in NATS message headers: names and values are
// unpadded base64url text behind a fixed prefix.
module NatsHeaders {
  import opened Prelude
  import opened Text
  import opened Metadata
  import Base64Url

  type Name = seq<byte>
  type Header = (Name, seq<seq<byte>>)
  type HeaderMap = map<Name, seq<seq<byte>>>

  datatype EncodeError = ContentTypeExceedsLimit | NameNotRepresentable | ValueNotRepresentable

  datatype DecodeError =
    | EncodedContentTypeTooLong
    | InvalidContentType
    | ContentTypeNotUtf8
    | TooManyEntries
    | EncodedKeyTooLong
    | EncodedValueTooLong
    | EncodedTotalTooLarge
    | InvalidKey
    | KeyNotUtf8
    | InvalidValue
    | Rejected(kind: ErrorKind)

  function MetadataPrefix(): seq<byte> {
    Ascii("Plenora-Meta-")
  }

  function ContentTypeName(): Name {
    Ascii("Plenora-Content-Type-B64")
  }

  function DefaultContentType(): seq<byte> {
    Ascii("application/octet-stream")
  }

  const MAX_CONTENT_TYPE_BYTES: nat := MAX_KEY_BYTES

  function MetadataName(key: seq<byte>): Name {
    MetadataPrefix() + Base64Url.Encode(key)
  }

  // What the client library accepts as a header: a visible ASCII name without a colon, and a value
  // on one line.
  predicate NameOk(name: Name) {
    name != [] && forall i :: 0 <= i < |name| ==> 33 <= name[i] <= 126 && name[i] != 58
  }

  predicate ValueOk(value: seq<byte>) {
    forall i :: 0 <= i < |value| ==> value[i] != 10 && value[i] != 13
  }

  // ---------------------------------------------------------------- encoding

  // Every entry has its header, and the content type has its own.
  ghost predicate Carries(headers: HeaderMap, contentType: seq<byte>, metadata: Entries) {
    && ContentTypeName() in headers && headers[ContentTypeName()] == [Base64Url.Encode(contentType)]
    && (forall key <- metadata ::
          MetadataName(key) in headers && headers[MetadataName(key)] == [Base64Url.Encode(metadata[key])])
  }

  // There is no other header.
  ghost predicate Covered(headers: HeaderMap, metadata: Entries) {
    forall name <- headers :: name == ContentTypeName() || exists key <- metadata :: name == MetadataName(key)
  }

  // The headers that carry exactly this content type and this metadata.
  ghost predicate Encodes(headers: HeaderMap, contentType: seq<byte>, metadata: Entries) {
    Carries(headers, contentType, metadata) && Covered(headers, metadata)
  }

  lemma PrefixIsRepresentable()
    ensures NameOk(MetadataPrefix())
  {
  }

  lemma ContentTypeNameIsRepresentable()
    ensures NameOk(ContentTypeName())
  {
  }

  lemma NamesAreRepresentable(key: seq<byte>)
    ensures NameOk(ContentTypeName()) && NameOk(MetadataName(key)) && ValueOk(Base64Url.Encode(key))
  {
    hide Ascii, ContentTypeName, MetadataPrefix, Base64Url.Encode;
    PrefixIsRepresentable();
    ContentTypeNameIsRepresentable();
    Base64Url.EncodeUsesSymbols(key);
  }

  // Metadata names are told apart from each other and from the content type, whatever the case.
  lemma NamesAreDistinct(a: seq<byte>, b: seq<byte>)
    ensures MetadataName(a) == MetadataName(b) ==> a == b
    ensures !SameIgnoringCase(MetadataName(a), ContentTypeName())
  {
    assert MetadataName(a)[|MetadataPrefix()|..] == Base64Url.Encode(a);
    assert MetadataName(b)[|MetadataPrefix()|..] == Base64Url.Encode(b);
    if MetadataName(a) == MetadataName(b) { Base64Url.EncodeIsInjective(a, b); }
    assert Fold(MetadataName(a)[8]) == 109 && Fold(ContentTypeName()[8]) == 99;
  }

  method InsertHeader(headers: HeaderMap, name: Name, value: seq<byte>) returns (r: Result<HeaderMap, EncodeError>)
    ensures r.Ok? <==> NameOk(name) && ValueOk(value)
    ensures r.Ok? ==> r.value == headers[name := [value]]
    ensures r == Err(NameNotRepresentable) <==> !NameOk(name)
    ensures r == Err(ValueNotRepresentable) <==> NameOk(name) && !ValueOk(value)
  {
    if !NameOk(name) { return Err(NameNotRepresentable); }
    if !ValueOk(value) { return Err(ValueNotRepresentable); }
    return Ok(headers[name := [value]]);
  }

  // Encoding fails for one reason only: the content type is too long.
  method Encode(contentType: seq<byte>, metadata: Entries) returns (r: Result<HeaderMap, EncodeError>)
    ensures r.Ok? <==> |contentType| <= MAX_CONTENT_TYPE_BYTES
    ensures r.Ok? ==> Encodes(r.value, contentType, metadata)
    ensures r.Err? ==> r.error == ContentTypeExceedsLimit
  {
    hide ContentTypeName, MetadataName, Base64Url.Encode, NameOk, ValueOk, Encodes;
    if |contentType| > MAX_CONTENT_TYPE_BYTES { return Err(ContentTypeExceedsLimit); }
    NamesAreRepresentable(contentType);
    var inserted := InsertHeader(map[], ContentTypeName(), Base64Url.Encode(contentType));
    if inserted.Err? { return inserted; }
    var headers := inserted.value;
    var rest := metadata.Keys;
    EncodesNoEntry(contentType);
    assert metadata - rest == map[];
    while rest != {}
      invariant rest <= metadata.Keys
      invariant Encodes(headers, contentType, metadata - rest)
      decreases |rest|
    {
      var key :| key in rest;
      NamesAreRepresentable(key);
      NamesAreRepresentable(metadata[key]);
      inserted := InsertHeader(headers, MetadataName(key), Base64Url.Encode(metadata[key]));
      if inserted.Err? { return inserted; }
      EncodesOneMore(headers, contentType, metadata - rest, key, metadata[key]);
      assert metadata - (rest - {key}) == (metadata - rest)[key := metadata[key]];
      headers := inserted.value;
      rest := rest - {key};
    }
    assert metadata - {} == metadata;
    return Ok(headers);
  }

  lemma EncodesNoEntry(contentType: seq<byte>)
    ensures Encodes(map[ContentTypeName() := [Base64Url.Encode(contentType)]], contentType, map[])
  {
    hide ContentTypeName, Base64Url.Encode;
  }

  lemma CarriesOneMore(headers: HeaderMap, contentType: seq<byte>, metadata: Entries, key: seq<byte>, value: seq<byte>)
    requires Carries(headers, contentType, metadata)
    requires MetadataName(key) != ContentTypeName()
    requires forall other <- metadata :: MetadataName(other) == MetadataName(key) ==> other == key
    ensures Carries(headers[MetadataName(key) := [Base64Url.Encode(value)]], contentType, metadata[key := value])
  {
    hide ContentTypeName, MetadataName, Base64Url.Encode;
  }

  lemma CoveredOneMore(headers: HeaderMap, metadata: Entries, key: seq<byte>, value: seq<byte>, text: seq<seq<byte>>)
    requires Covered(headers, metadata)
    ensures Covered(headers[MetadataName(key) := text], metadata[key := value])
  {
    hide ContentTypeName, MetadataName;
    var after := metadata[key := value];
    assert key in after;
    forall name <- headers ensures name == ContentTypeName() || exists k <- after :: name == MetadataName(k) {
      if name != ContentTypeName() {
        var k :| k in metadata && name == MetadataName(k);
        assert k in after;
      }
    }
  }

  lemma EncodesOneMore(headers: HeaderMap, contentType: seq<byte>, metadata: Entries, key: seq<byte>, value: seq<byte>)
    requires Encodes(headers, contentType, metadata)
    ensures Encodes(headers[MetadataName(key) := [Base64Url.Encode(value)]], contentType, metadata[key := value])
  {
    hide ContentTypeName, MetadataName, Base64Url.Encode, SameIgnoringCase, Carries, Covered;
    forall other <- metadata ensures MetadataName(other) == MetadataName(key) ==> other == key {
      NamesAreDistinct(other, key);
    }
    NotTheContentType(key);
    CarriesOneMore(headers, contentType, metadata, key, value);
    CoveredOneMore(headers, metadata, key, value, [Base64Url.Encode(value)]);
  }

  lemma NotTheContentType(key: seq<byte>)
    ensures MetadataName(key) != ContentTypeName()
  {
    hide ContentTypeName, MetadataName;
    NamesAreDistinct(key, key);
  }

  // ---------------------------------------------------------------- decoding

  // What the decoding loop carries: the result so far and the two running limits.
  datatype Progress = Progress(contentType: seq<byte>, metadata: Entries, entries: nat, bytes: nat)

  function Start(): Progress {
    Progress(DefaultContentType(), map[], 0, 0)
  }

  function StripPrefix(name: Name): Option<seq<byte>> {
    if |name| >= |MetadataPrefix()| && SameIgnoringCase(name[..|MetadataPrefix()|], MetadataPrefix())
    then Some(name[|MetadataPrefix()|..]) else None
  }

  function DecodeText(value: seq<byte>): Result<seq<byte>, DecodeError> {
    if |value| > Base64Url.EncodedLength(MAX_CONTENT_TYPE_BYTES) then Err(EncodedContentTypeTooLong)
    else
      match Base64Url.Decode(value)
      case None => Err(InvalidContentType)
      case Some(text) => if Utf8(text) then Ok(text) else Err(ContentTypeNotUtf8)
  }

  function EntryBytes(encodedKey: seq<byte>, value: seq<byte>): nat {
    Base64Url.DecodedLengthBound(|encodedKey|) + Base64Url.DecodedLengthBound(|value|)
  }

  // The checks made on one metadata header before anything is decoded.
  function LimitError(p: Progress, encodedKey: seq<byte>, value: seq<byte>): Option<DecodeError> {
    if p.entries + 1 > MAX_ENTRIES then Some(TooManyEntries)
    else if |encodedKey| > Base64Url.EncodedLength(MAX_KEY_BYTES) then Some(EncodedKeyTooLong)
    else if |value| > Base64Url.EncodedLength(MAX_VALUE_BYTES) then Some(EncodedValueTooLong)
    else if p.bytes + EntryBytes(encodedKey, value) > MAX_TOTAL_BYTES then Some(EncodedTotalTooLarge)
    else None
  }

  function DecodeEntry(encodedKey: seq<byte>, value: seq<byte>): Result<(seq<byte>, seq<byte>), DecodeError> {
    match Base64Url.Decode(encodedKey)
    case None => Err(InvalidKey)
    case Some(key) =>
      if !Utf8(key) then Err(KeyNotUtf8)
      else
        match Base64Url.Decode(value)
        case None => Err(InvalidValue)
        case Some(bytes) => Ok((key, bytes))
  }

  ghost function VisitEntry(p: Progress, encodedKey: seq<byte>, value: seq<byte>): Result<Progress, DecodeError> {
    if LimitError(p, encodedKey, value).Some? then Err(LimitError(p, encodedKey, value).value)
    else
      match DecodeEntry(encodedKey, value)
      case Err(error) => Err(error)
      case Ok((key, bytes)) =>
        match Inserted(p.metadata, key, bytes)
        case Err(kind) => Err(Rejected(kind))
        case Ok(metadata) =>
          Ok(Progress(p.contentType, metadata, p.entries + 1, p.bytes + EntryBytes(encodedKey, value)))
  }

  ghost function Visit(p: Progress, header: Header): Result<Progress, DecodeError> {
    if header.1 == [] then Ok(p)
    else if SameIgnoringCase(header.0, ContentTypeName()) then
      match DecodeText(header.1[0])
      case Err(error) => Err(error)
      case Ok(text) => Ok(p.(contentType := text))
    else
      match StripPrefix(header.0)
      case None => Ok(p)
      case Some(encodedKey) => VisitEntry(p, encodedKey, header.1[0])
  }

  ghost function VisitAll(p: Progress, headers: seq<Header>): Result<Progress, DecodeError>
    decreases |headers|
  {
    if headers == [] then Ok(p)
    else
      match Visit(p, headers[0])
      case Err(error) => Err(error)
      case Ok(next) => VisitAll(next, headers[1..])
  }

  // Decoding the headers of a message, in whatever order the map yields them.
  ghost function Decoded(headers: Option<seq<Header>>): Result<(seq<byte>, Entries), DecodeError> {
    match headers
    case None => Ok((DefaultContentType(), map[]))
    case Some(list) =>
      match VisitAll(Start(), list)
      case Err(error) => Err(error)
      case Ok(p) => Ok((p.contentType, p.metadata))
  }

  method Decode(headers: Option<seq<Header>>) returns (r: Result<(seq<byte>, Entries), DecodeError>)
    ensures r == Decoded(headers)
  {
    hide ContentTypeName, MetadataPrefix, DefaultContentType, LimitError, DecodeEntry, DecodeText;
    hide Inserted, Valid, SameIgnoringCase;
    var contentType := DefaultContentType();
    var metadata := new MessageMetadata();
    if headers.None? { return Ok((contentType, metadata.entries)); }
    var list := headers.value;
    var entries: nat, bytes: nat, n := 0, 0, 0;
    while n < |list|
      invariant n <= |list| && Valid(metadata.entries) && fresh(metadata)
      invariant VisitAll(Progress(contentType, metadata.entries, entries, bytes), list[n..]) == VisitAll(Start(), list)
    {
      var (name, values) := list[n];
      assert list[n..][0] == list[n] && list[n..][1..] == list[n + 1..];
      ghost var p := Progress(contentType, metadata.entries, entries, bytes);
      if values != [] {
        if SameIgnoringCase(name, ContentTypeName()) {
          var text := DecodeText(values[0]);
          if text.Err? { return Err(text.error); }
          contentType := text.value;
        } else {
          var encodedKey := StripPrefix(name);
          if encodedKey.Some? {
            assert Visit(p, list[n]) == VisitEntry(p, encodedKey.value, values[0]);
            var limit := LimitError(Progress(contentType, map[], entries, bytes), encodedKey.value, values[0]);
            LimitIgnoresMap(p, encodedKey.value, values[0]);
            if limit.Some? { return Err(limit.value); }
            var entry := DecodeEntry(encodedKey.value, values[0]);
            if entry.Err? { return Err(entry.error); }
            ghost var before := metadata.entries;
            InsertAcceptsExactly(before, entry.value.0, entry.value.1);
            var inserted := metadata.Insert(entry.value.0, entry.value.1);
            if inserted.Err? { return Err(Rejected(inserted.error)); }
            entries, bytes := entries + 1, bytes + EntryBytes(encodedKey.value, values[0]);
          }
        }
      }
      n := n + 1;
    }
    return Ok((contentType, metadata.entries));
  }

  lemma LimitIgnoresMap(p: Progress, encodedKey: seq<byte>, value: seq<byte>)
    ensures LimitError(p.(metadata := map[]), encodedKey, value) == LimitError(p, encodedKey, value)
  {
  }
}
