// What the header codec promises: metadata survives the trip through headers exactly, in whatever
// order the headers are read back, and whatever is accepted can be sent on.
module NatsRoundTrip {
  import opened Prelude
  import opened Text
  import opened Metadata
  import opened NatsHeaders
  import Base64Url

  // `list` is some order of visiting the header map.
  ghost predicate Enumerates(list: seq<Header>, headers: HeaderMap) {
    && (forall i :: 0 <= i < |list| ==> list[i].0 in headers && list[i].1 == headers[list[i].0])
    && (forall i, j :: 0 <= i < j < |list| ==> list[i].0 != list[j].0)
    && (forall name <- headers :: exists i :: 0 <= i < |list| && list[i].0 == name)
  }

  // ---------------------------------------------------------------- one header at a time

  lemma PrefixIsStripped(key: seq<byte>)
    ensures StripPrefix(MetadataName(key)) == Some(Base64Url.Encode(key))
  {
    hide Base64Url.Encode, Ascii;
    assert MetadataName(key)[..|MetadataPrefix()|] == MetadataPrefix();
  }

  lemma ContentTypeIsRead(p: Progress, contentType: seq<byte>)
    requires Utf8(contentType) && |contentType| <= MAX_CONTENT_TYPE_BYTES
    ensures Visit(p, (ContentTypeName(), [Base64Url.Encode(contentType)])) == Ok(p.(contentType := contentType))
  {
    Base64Url.DecodeEncode(contentType);
    Base64Url.LimitsAgree(Base64Url.Encode(contentType), MAX_CONTENT_TYPE_BYTES);
    hide Base64Url.Encode, Base64Url.Decode, Ascii, Utf8;
  }

  // The running size the decoder keeps is the exact size of the entry: no well-sized entry is refused.
  lemma EntryIsRead(p: Progress, key: seq<byte>, value: seq<byte>)
    requires Valid(p.metadata) && Valid(p.metadata[key := value])
    requires p.entries + 1 <= MAX_ENTRIES && p.bytes + |key| + |value| <= MAX_TOTAL_BYTES
    ensures Visit(p, (MetadataName(key), [Base64Url.Encode(value)])) ==
            Ok(Progress(p.contentType, p.metadata[key := value], p.entries + 1, p.bytes + |key| + |value|))
  {
    var after := p.metadata[key := value];
    assert key in after && after[key] == value;
    KeyTextIsAscii(key);
    InsertAcceptsExactly(p.metadata, key, value);
    Base64Url.DecodeEncode(key);
    Base64Url.DecodeEncode(value);
    var k, v := Base64Url.Encode(key), Base64Url.Encode(value);
    hide Valid, Inserted, Base64Url.Encode;
    Base64Url.BoundIsExact(k);
    Base64Url.BoundIsExact(v);
    Base64Url.LimitsAgree(k, MAX_KEY_BYTES);
    Base64Url.LimitsAgree(v, MAX_VALUE_BYTES);
    PrefixIsStripped(key);
    NamesAreDistinct(key, key);
    hide *;
    EntryVisited(p, key, value, k, v);
  }

  lemma EntryFits(p: Progress, key: seq<byte>, value: seq<byte>, k: seq<byte>, v: seq<byte>)
    requires Base64Url.Decode(k) == Some(key) && Base64Url.Decode(v) == Some(value) && Utf8(key)
    requires |k| <= Base64Url.EncodedLength(MAX_KEY_BYTES) && |v| <= Base64Url.EncodedLength(MAX_VALUE_BYTES)
    requires Base64Url.DecodedLengthBound(|k|) == |key| && Base64Url.DecodedLengthBound(|v|) == |value|
    requires p.entries + 1 <= MAX_ENTRIES && p.bytes + |key| + |value| <= MAX_TOTAL_BYTES
    ensures LimitError(p, k, v) == None && EntryBytes(k, v) == |key| + |value| && DecodeEntry(k, v) == Ok((key, value))
  {
    hide Base64Url.Decode, Utf8, Base64Url.EncodedLength, Base64Url.DecodedLengthBound;
  }

  lemma AcceptedEntry(p: Progress, key: seq<byte>, value: seq<byte>, k: seq<byte>, v: seq<byte>)
    requires LimitError(p, k, v) == None && EntryBytes(k, v) == |key| + |value| && DecodeEntry(k, v) == Ok((key, value))
    requires Inserted(p.metadata, key, value) == Ok(p.metadata[key := value])
    ensures VisitEntry(p, k, v) ==
            Ok(Progress(p.contentType, p.metadata[key := value], p.entries + 1, p.bytes + |key| + |value|))
  {
    hide LimitError, EntryBytes, DecodeEntry, Inserted;
  }

  lemma VisitsEntry(p: Progress, name: Name, k: seq<byte>, v: seq<byte>)
    requires StripPrefix(name) == Some(k) && !SameIgnoringCase(name, ContentTypeName())
    ensures Visit(p, (name, [v])) == VisitEntry(p, k, v)
  {
    hide StripPrefix, SameIgnoringCase, ContentTypeName, VisitEntry;
  }

  lemma EntryVisited(p: Progress, key: seq<byte>, value: seq<byte>, k: seq<byte>, v: seq<byte>)
    requires StripPrefix(MetadataName(key)) == Some(k) && !SameIgnoringCase(MetadataName(key), ContentTypeName())
    requires Base64Url.Decode(k) == Some(key) && Base64Url.Decode(v) == Some(value) && Utf8(key)
    requires |k| <= Base64Url.EncodedLength(MAX_KEY_BYTES) && |v| <= Base64Url.EncodedLength(MAX_VALUE_BYTES)
    requires Base64Url.DecodedLengthBound(|k|) == |key| && Base64Url.DecodedLengthBound(|v|) == |value|
    requires p.entries + 1 <= MAX_ENTRIES && p.bytes + |key| + |value| <= MAX_TOTAL_BYTES
    requires Inserted(p.metadata, key, value) == Ok(p.metadata[key := value])
    ensures Visit(p, (MetadataName(key), [v])) ==
            Ok(Progress(p.contentType, p.metadata[key := value], p.entries + 1, p.bytes + |key| + |value|))
  {
    hide *;
    EntryFits(p, key, value, k, v);
    AcceptedEntry(p, key, value, k, v);
    VisitsEntry(p, MetadataName(key), k, v);
  }

  // A metadata header is accepted exactly when there is room for one more, its name and value are
  // canonical base64url text, the running total allows its exact size, and the resulting map is
  // within every bound. The limits on encoded text refuse nothing else.
  lemma EntryAcceptedExactly(p: Progress, encodedKey: seq<byte>, value: seq<byte>)
    requires Valid(p.metadata)
    ensures VisitEntry(p, encodedKey, value).Ok? <==>
            && p.entries < MAX_ENTRIES
            && Base64Url.Decode(encodedKey).Some? && Base64Url.Decode(value).Some?
            && var key, bytes := Base64Url.Decode(encodedKey).value, Base64Url.Decode(value).value;
               p.bytes + |key| + |bytes| <= MAX_TOTAL_BYTES && Valid(p.metadata[key := bytes])
  {
    hide Base64Url.Decode, KeyError, TotalBytes, Utf8;
    if Base64Url.Decode(encodedKey).Some? && Base64Url.Decode(value).Some? {
      var key, bytes := Base64Url.Decode(encodedKey).value, Base64Url.Decode(value).value;
      var after := p.metadata[key := bytes];
      Base64Url.BoundIsExact(encodedKey);
      Base64Url.BoundIsExact(value);
      Base64Url.LimitsAgree(encodedKey, MAX_KEY_BYTES);
      Base64Url.LimitsAgree(value, MAX_VALUE_BYTES);
      InsertAcceptsExactly(p.metadata, key, bytes);
      if Valid(after) {
        assert key in after && after[key] == bytes;
        KeyTextIsAscii(key);
      }
      hide Inserted, Valid, Base64Url.EncodedLength, Base64Url.DecodedLengthBound;
    }
  }

  // A refused metadata header is refused for the first rule it breaks, in this order: the number of
  // entries, the length of the key text, of the value text, the running total, then what the texts say.
  lemma EntryErrors(p: Progress, encodedKey: seq<byte>, value: seq<byte>)
    ensures var r := VisitEntry(p, encodedKey, value);
            var total := p.bytes + |encodedKey| * 3 / 4 + |value| * 3 / 4;
            var short := p.entries < MAX_ENTRIES && |encodedKey| <= 171 && |value| <= 10923 && total <= MAX_TOTAL_BYTES;
            && (r == Err(TooManyEntries) <==> p.entries >= MAX_ENTRIES)
            && (r == Err(EncodedKeyTooLong) <==> p.entries < MAX_ENTRIES && |encodedKey| > 171)
            && (r == Err(EncodedValueTooLong) <==>
                  p.entries < MAX_ENTRIES && |encodedKey| <= 171 && |value| > 10923)
            && (r == Err(EncodedTotalTooLarge) <==>
                  p.entries < MAX_ENTRIES && |encodedKey| <= 171 && |value| <= 10923 && total > MAX_TOTAL_BYTES)
            && (r == Err(InvalidKey) <==> short && Base64Url.Decode(encodedKey).None?)
            && (r == Err(KeyNotUtf8) <==>
                  short && Base64Url.Decode(encodedKey).Some? && !Utf8(Base64Url.Decode(encodedKey).value))
            && (r == Err(InvalidValue) <==>
                  && short && Base64Url.Decode(encodedKey).Some? && Utf8(Base64Url.Decode(encodedKey).value)
                  && Base64Url.Decode(value).None?)
  {
    hide Base64Url.Decode, Utf8, Inserted;
  }

  // The content type is refused when its text is over the length of 128 encoded bytes, is no
  // canonical base64, or does not spell UTF-8; and it is otherwise what the text spells.
  lemma ContentTypeErrors(value: seq<byte>)
    ensures var r := DecodeText(value);
            && (r == Err(EncodedContentTypeTooLong) <==> |value| > 171)
            && (r == Err(InvalidContentType) <==> |value| <= 171 && Base64Url.Decode(value).None?)
            && (r == Err(ContentTypeNotUtf8) <==>
                  |value| <= 171 && Base64Url.Decode(value).Some? && !Utf8(Base64Url.Decode(value).value))
            && (r.Ok? ==> Base64Url.Decode(value) == Some(r.value))
  {
    hide Base64Url.Decode, Utf8;
  }

  // Names are read in any case: a header is taken for the content type, or for a metadata entry with
  // what follows the prefix as its key text, exactly up to the case of the letters of the fixed part.
  lemma NamesAreReadInAnyCase(p: Progress, header: Header)
    ensures header.1 == [] ==> Visit(p, header) == Ok(p)
    ensures header.1 != [] && SameIgnoringCase(header.0, Ascii("Plenora-Content-Type-B64")) ==>
              Visit(p, header) == (match DecodeText(header.1[0])
                                   case Ok(text) => Ok(p.(contentType := text))
                                   case Err(error) => Err(error))
    ensures header.1 != [] && |header.0| >= 13 && SameIgnoringCase(header.0[..13], Ascii("Plenora-Meta-")) ==>
              Visit(p, header) == VisitEntry(p, header.0[13..], header.1[0])
    ensures header.1 != [] && !SameIgnoringCase(header.0, Ascii("Plenora-Content-Type-B64"))
            && (|header.0| < 13 || !SameIgnoringCase(header.0[..13], Ascii("Plenora-Meta-"))) ==>
              Visit(p, header) == Ok(p)
  {
    hide DecodeText, VisitEntry;
    PrefixesClash(header.0);
  }

  lemma PrefixesClash(name: Name)
    ensures |Ascii("Plenora-Meta-")| == 13
    ensures |name| >= 13 && SameIgnoringCase(name[..13], Ascii("Plenora-Meta-")) ==>
              !SameIgnoringCase(name, Ascii("Plenora-Content-Type-B64"))
  {
    if |name| >= 13 && SameIgnoringCase(name[..13], Ascii("Plenora-Meta-")) {
      assert Fold(name[..13][8]) == Fold(Code('M'));
      assert Ascii("Plenora-Content-Type-B64")[8] == Code('C');
    }
  }

  // ---------------------------------------------------------------- the round trip

  function Part(m: Entries, keys: set<seq<byte>>): Entries {
    map key | key in m && key in keys :: m[key]
  }

  // Keys whose header is among the first n visited.
  ghost function Seen(m: Entries, list: seq<Header>, n: nat): set<seq<byte>>
    requires n <= |list|
  {
    set key | key in m && exists i :: 0 <= i < n && list[i].0 == MetadataName(key)
  }

  ghost predicate TypeSeen(list: seq<Header>, n: nat)
    requires n <= |list|
  {
    exists i :: 0 <= i < n && list[i].0 == ContentTypeName()
  }

  // Where the decoder stands after n headers, if nothing was lost, doubled or refused so far.
  ghost predicate Standing(p: Progress, contentType: seq<byte>, m: Entries, list: seq<Header>, n: nat)
    requires n <= |list|
  {
    var part := Part(m, Seen(m, list, n));
    && p.metadata == part && p.entries == |part| && p.bytes == TotalBytes(part)
    && p.contentType == if TypeSeen(list, n) then contentType else DefaultContentType()
  }

  lemma SeenContentType(m: Entries, list: seq<Header>, n: nat)
    requires n < |list| && list[n].0 == ContentTypeName()
    ensures Seen(m, list, n + 1) == Seen(m, list, n)
  {
    forall key <- m ensures MetadataName(key) != ContentTypeName() { NamesAreDistinct(key, key); }
    hide MetadataName, ContentTypeName;
    assert forall key <- m :: (exists i :: 0 <= i < n + 1 && list[i].0 == MetadataName(key)) ==>
                              (exists i :: 0 <= i < n && list[i].0 == MetadataName(key));
  }

  lemma SeenEntry(m: Entries, list: seq<Header>, n: nat, key: seq<byte>)
    requires n < |list| && key in m && list[n].0 == MetadataName(key)
    requires forall i :: 0 <= i < n ==> list[i].0 != list[n].0
    ensures key !in Seen(m, list, n) && Seen(m, list, n + 1) == Seen(m, list, n) + {key}
  {
    forall other <- m | other != key ensures MetadataName(other) != MetadataName(key) { NamesAreDistinct(other, key); }
    hide MetadataName;
    forall other <- m ensures other in Seen(m, list, n + 1) <==> other in Seen(m, list, n) + {key} {
      if i :| 0 <= i < n && list[i].0 == MetadataName(other) { assert other in Seen(m, list, n + 1); }
      if other == key { assert list[n].0 == MetadataName(other); }
    }
  }

  // Adding one more entry of a valid map to a part of it stays within every bound.
  lemma PartGrows(m: Entries, keys: set<seq<byte>>, key: seq<byte>)
    requires Valid(m) && key in m && key !in keys
    ensures var part := Part(m, keys);
            && Part(m, keys + {key}) == part[key := m[key]] && Valid(part) && Valid(part[key := m[key]])
            && |part[key := m[key]]| == |part| + 1 <= MAX_ENTRIES
            && TotalBytes(part[key := m[key]]) == TotalBytes(part) + |key| + |m[key]| <= MAX_TOTAL_BYTES
  {
    hide TotalBytes, KeyError, Valid;
    var part := Part(m, keys);
    PartIsValid(part, m);
    PartIsValid(part[key := m[key]], m);
    TotalOfUpdate(part, key, m[key]);
    assert part[key := m[key]].Keys == part.Keys + {key};
    ValidIsBounded(part[key := m[key]]);
  }

  lemma ValidIsBounded(m: Entries)
    requires Valid(m)
    ensures |m| <= MAX_ENTRIES && TotalBytes(m) <= MAX_TOTAL_BYTES
  {
  }

  lemma StandingAfterContentType(p: Progress, contentType: seq<byte>, m: Entries, list: seq<Header>, n: nat)
    requires n < |list| && Standing(p, contentType, m, list, n)
    requires list[n].0 == ContentTypeName()
    ensures Standing(p.(contentType := contentType), contentType, m, list, n + 1)
  {
    SeenContentType(m, list, n);
    assert TypeSeen(list, n + 1);
    hide Part, Seen, ContentTypeName, TypeSeen;
  }

  lemma RoomForEntry(p: Progress, contentType: seq<byte>, m: Entries, list: seq<Header>, n: nat, key: seq<byte>)
    requires Valid(m) && n < |list| && Standing(p, contentType, m, list, n)
    requires key in m && list[n].0 == MetadataName(key)
    requires forall i :: 0 <= i < n ==> list[i].0 != list[n].0
    ensures Valid(p.metadata) && Valid(p.metadata[key := m[key]])
    ensures p.entries + 1 == |p.metadata[key := m[key]]| <= MAX_ENTRIES
    ensures p.bytes + |key| + |m[key]| == TotalBytes(p.metadata[key := m[key]]) <= MAX_TOTAL_BYTES
    ensures p.metadata[key := m[key]] == Part(m, Seen(m, list, n + 1))
  {
    SeenEntry(m, list, n, key);
    PartGrows(m, Seen(m, list, n), key);
    hide Part, Seen, ContentTypeName, MetadataName, Valid, TotalBytes;
  }

  lemma StandingAfterEntry(p: Progress, contentType: seq<byte>, m: Entries, list: seq<Header>, n: nat, key: seq<byte>)
    requires Valid(m) && n < |list| && Standing(p, contentType, m, list, n)
    requires key in m && list[n].0 == MetadataName(key)
    requires forall i :: 0 <= i < n ==> list[i].0 != list[n].0
    ensures Standing(Progress(p.contentType, p.metadata[key := m[key]], p.entries + 1, p.bytes + |key| + |m[key]|),
                     contentType, m, list, n + 1)
  {
    assert TypeSeen(list, n + 1) == TypeSeen(list, n) by { NamesAreDistinct(key, key); }
    hide Part, Seen, ContentTypeName, MetadataName, Valid, TotalBytes, DefaultContentType, TypeSeen;
    RoomForEntry(p, contentType, m, list, n, key);
  }

  lemma VisitsNext(p: Progress, contentType: seq<byte>, m: Entries, headers: HeaderMap, list: seq<Header>, n: nat)
    requires Valid(m) && Utf8(contentType) && |contentType| <= MAX_CONTENT_TYPE_BYTES
    requires Encodes(headers, contentType, m) && Enumerates(list, headers) && n < |list|
    requires Standing(p, contentType, m, list, n)
    ensures Visit(p, list[n]).Ok? && Standing(Visit(p, list[n]).value, contentType, m, list, n + 1)
  {
    hide Valid, Utf8, Standing, Visit, ContentTypeName, MetadataName, Base64Url.Encode, Part, Seen, TotalBytes;
    var name := list[n].0;
    assert list[n] == (name, headers[name]);
    if name == ContentTypeName() {
      ContentTypeIsRead(p, contentType);
      StandingAfterContentType(p, contentType, m, list, n);
    } else {
      var key :| key in m && name == MetadataName(key);
      RoomForEntry(p, contentType, m, list, n, key);
      StandingAfterEntry(p, contentType, m, list, n, key);
      EntryIsRead(p, key, m[key]);
    }
  }

  lemma {:induction false} VisitsAll(p: Progress, contentType: seq<byte>, m: Entries, headers: HeaderMap,
                                     list: seq<Header>, n: nat)
    requires Valid(m) && Utf8(contentType) && |contentType| <= MAX_CONTENT_TYPE_BYTES
    requires Encodes(headers, contentType, m) && Enumerates(list, headers) && n <= |list|
    requires Standing(p, contentType, m, list, n)
    ensures VisitAll(p, list[n..]).Ok? && Standing(VisitAll(p, list[n..]).value, contentType, m, list, |list|)
    decreases |list| - n
  {
    hide Valid, Utf8, Standing, Visit, Encodes, Enumerates;
    if n < |list| {
      VisitsNext(p, contentType, m, headers, list, n);
      assert list[n..][0] == list[n] && list[n..][1..] == list[n + 1..];
      VisitsAll(Visit(p, list[n]).value, contentType, m, headers, list, n + 1);
    }
  }

  lemma StandingAtEnd(p: Progress, contentType: seq<byte>, m: Entries, headers: HeaderMap, list: seq<Header>)
    requires Encodes(headers, contentType, m) && Enumerates(list, headers)
    requires Standing(p, contentType, m, list, |list|)
    ensures p.metadata == m && p.contentType == contentType
  {
    hide ContentTypeName, MetadataName, Base64Url.Encode;
    forall key <- m ensures key in Seen(m, list, |list|) {
      assert MetadataName(key) in headers;
    }
    assert ContentTypeName() in headers;
  }

  lemma StandingAtStart(contentType: seq<byte>, m: Entries, list: seq<Header>)
    ensures Standing(Start(), contentType, m, list, 0)
  {
    hide ContentTypeName, DefaultContentType;
    assert Part(m, Seen(m, list, 0)) == map[];
  }

  // Every content type of at most 128 bytes and every valid metadata map come back exactly, however
  // the header map is iterated.
  lemma RoundTrip(contentType: seq<byte>, m: Entries, headers: HeaderMap, list: seq<Header>)
    requires Valid(m) && Utf8(contentType) && |contentType| <= MAX_CONTENT_TYPE_BYTES
    requires Encodes(headers, contentType, m) && Enumerates(list, headers)
    ensures Decoded(Some(list)) == Ok((contentType, m))
  {
    hide Valid, Utf8, Standing, Visit, VisitAll, Encodes, Enumerates, Start;
    StandingAtStart(contentType, m, list);
    assert list[0..] == list;
    VisitsAll(Start(), contentType, m, headers, list, 0);
    StandingAtEnd(VisitAll(Start(), list).value, contentType, m, headers, list);
  }

  // ---------------------------------------------------------------- what is accepted

  ghost predicate Sendable(contentType: seq<byte>, m: Entries) {
    Valid(m) && Utf8(contentType) && |contentType| <= MAX_CONTENT_TYPE_BYTES
  }

  lemma VisitKeepsSendable(p: Progress, header: Header)
    requires Sendable(p.contentType, p.metadata) && Visit(p, header).Ok?
    ensures Sendable(Visit(p, header).value.contentType, Visit(p, header).value.metadata)
  {
    hide Valid, Utf8, Inserted, Base64Url.Decode, ContentTypeName, MetadataPrefix;
    if header.1 != [] {
      var value := header.1[0];
      if SameIgnoringCase(header.0, ContentTypeName()) {
        Base64Url.LimitsAgree(value, MAX_CONTENT_TYPE_BYTES);
      } else if StripPrefix(header.0).Some? {
        var (key, bytes) := DecodeEntry(StripPrefix(header.0).value, value).value;
        InsertAcceptsExactly(p.metadata, key, bytes);
      }
    }
  }

  lemma {:induction false} AllVisitedIsSendable(p: Progress, list: seq<Header>)
    requires Sendable(p.contentType, p.metadata) && VisitAll(p, list).Ok?
    ensures Sendable(VisitAll(p, list).value.contentType, VisitAll(p, list).value.metadata)
    decreases |list|
  {
    hide Sendable, Visit;
    if list != [] {
      VisitKeepsSendable(p, list[0]);
      AllVisitedIsSendable(Visit(p, list[0]).value, list[1..]);
    }
  }

  lemma StartIsSendable()
    ensures Sendable(Start().contentType, map[])
  {
    AsciiIsUtf8(DefaultContentType());
  }

  // Whatever headers a peer sent, what was accepted is within bounds, can be encoded again, and
  // decodes to the same content type and metadata.
  lemma AcceptedCanBeSentOn(received: Option<seq<Header>>, headers: HeaderMap, list: seq<Header>)
    requires Decoded(received).Ok?
    requires Encodes(headers, Decoded(received).value.0, Decoded(received).value.1) && Enumerates(list, headers)
    ensures Sendable(Decoded(received).value.0, Decoded(received).value.1)
    ensures Decoded(Some(list)) == Decoded(received)
  {
    hide VisitAll, Encodes, Enumerates, Valid, Utf8;
    StartIsSendable();
    if received.Some? {
      AllVisitedIsSendable(Start(), received.value);
    }
    RoundTrip(Decoded(received).value.0, Decoded(received).value.1, headers, list);
  }
}
