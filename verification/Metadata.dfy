// Portable message metadata: a byte-bounded map from namespaced keys to binary values.
module Metadata {
  import opened Prelude
  import opened Text

  const MAX_ENTRIES: nat := 64
  const MAX_KEY_BYTES: nat := 128
  const MAX_VALUE_BYTES: nat := 8192
  const MAX_TOTAL_BYTES: nat := 32768

  const DOT: byte := 46

  datatype ErrorKind =
    | MissingNamespace
    | EmptySegment
    | InvalidCharacter
    | KeyTooLong
    | ValueTooLarge
    | EntryCapacityExceeded
    | TotalBytesExceeded

  type Entries = map<seq<byte>, seq<byte>>

  predicate KeyCharacter(b: byte) {
    Alphanumeric(b) || b == DOT || b == 45 || b == 95
  }

  // The first rule a key breaks, in the order the rules are applied.
  function KeyError(key: seq<byte>): Option<ErrorKind> {
    if |key| > MAX_KEY_BYTES then Some(KeyTooLong)
    else if DOT !in key then Some(MissingNamespace)
    else if exists part <- Split(key, DOT) :: part == [] then Some(EmptySegment)
    else if exists b <- key :: !KeyCharacter(b) then Some(InvalidCharacter)
    else None
  }

  // The accepted keys: dotted names over a small alphabet, without a dot at either end or two in a
  // row. Any other key is refused for the first of these rules it breaks.
  lemma KeyIsNamespaced(key: seq<byte>)
    ensures KeyError(key) == None <==>
            |key| <= MAX_KEY_BYTES && DOT in key && !HasGap(key, DOT) && forall b <- key :: KeyCharacter(b)
    ensures KeyError(key) == Some(KeyTooLong) <==> |key| > MAX_KEY_BYTES
    ensures KeyError(key) == Some(MissingNamespace) <==> |key| <= MAX_KEY_BYTES && DOT !in key
    ensures KeyError(key) == Some(EmptySegment) <==> |key| <= MAX_KEY_BYTES && DOT in key && HasGap(key, DOT)
    ensures KeyError(key).Some? ==>
              KeyError(key).value in {KeyTooLong, MissingNamespace, EmptySegment, InvalidCharacter}
  {
    EmptySegments(key, DOT);
  }

  // The alphabet of keys, written out.
  lemma KeyAlphabet(b: byte)
    ensures KeyCharacter(b) <==>
            b in Ascii(UPPERCASE) || b in Ascii(LOWERCASE) || b in Ascii(DIGITS) || b in Ascii(".-_")
  {
    ClassesAreCharacters(b);
    assert Ascii(".-_") == [46, 45, 95];
  }

  lemma ThreeSegmentsAreValid(key: seq<byte>, i: nat, j: nat)
    requires 0 < i && i + 1 < j < |key| - 1 && |key| <= MAX_KEY_BYTES && key[i] == key[j] == DOT
    requires forall k :: 0 <= k < |key| && k != i && k != j ==> KeyCharacter(key[k]) && key[k] != DOT
    ensures KeyError(key) == None
  {
    KeyIsNamespaced(key);
    hide KeyError;
    assert key[i] in key;
  }

  // ---------------------------------------------------------------- total size

  // Combined size of all keys and values, independent of the order they are visited in.
  ghost function TotalBytes(m: Entries): nat {
    if m == map[] then 0
    else
      var key :| key in m;
      |key| + |m[key]| + TotalBytes(m - {key})
  }

  lemma {:induction false} TotalWithout(m: Entries, key: seq<byte>)
    requires key in m
    ensures TotalBytes(m) == |key| + |m[key]| + TotalBytes(m - {key})
    decreases m
  {
    var first :| first in m && TotalBytes(m) == |first| + |m[first]| + TotalBytes(m - {first});
    if first != key {
      TotalWithout(m - {first}, key);
      TotalWithout(m - {key}, first);
      assert m - {first} - {key} == m - {key} - {first};
    }
  }

  lemma TotalOfUpdate(m: Entries, key: seq<byte>, value: seq<byte>)
    ensures TotalBytes(m[key := value]) == TotalBytes(m - {key}) + |key| + |value|
    ensures key in m ==> TotalBytes(m - {key}) == TotalBytes(m) - |key| - |m[key]|
    ensures key !in m ==> TotalBytes(m - {key}) == TotalBytes(m)
  {
    TotalWithout(m[key := value], key);
    assert m[key := value] - {key} == m - {key};
    if key in m { TotalWithout(m, key); } else { assert m - {key} == m; }
  }

  // No key that is not in `whole`, and no value longer than the one there.
  ghost predicate Within(part: Entries, whole: Entries) {
    forall key <- part :: key in whole && |part[key]| <= |whole[key]|
  }

  lemma {:induction false} TotalOfPart(part: Entries, whole: Entries)
    requires Within(part, whole)
    ensures TotalBytes(part) <= TotalBytes(whole) && |part| <= |whole|
    decreases part
  {
    if part != map[] {
      var key :| key in part;
      TotalOfPart(part - {key}, whole - {key});
      TotalWithout(part, key);
      TotalWithout(whole, key);
      assert (part - {key}).Keys == part.Keys - {key} && (whole - {key}).Keys == whole.Keys - {key};
    }
  }

  // ---------------------------------------------------------------- bounds

  ghost predicate Valid(m: Entries) {
    && |m| <= MAX_ENTRIES && TotalBytes(m) <= MAX_TOTAL_BYTES
    && (forall key <- m :: KeyError(key) == None && |m[key]| <= MAX_VALUE_BYTES)
  }

  lemma PartIsValid(part: Entries, whole: Entries)
    requires Valid(whole) && Within(part, whole)
    ensures Valid(part)
  {
    TotalOfPart(part, whole);
  }

  // Validated insertion. The bytes of the entry being replaced do not count against the limit.
  ghost function Inserted(m: Entries, key: seq<byte>, value: seq<byte>): Result<Entries, ErrorKind> {
    if KeyError(key).Some? then Err(KeyError(key).value)
    else if |value| > MAX_VALUE_BYTES then Err(ValueTooLarge)
    else if key !in m && |m| >= MAX_ENTRIES then Err(EntryCapacityExceeded)
    else
      var replaced := if key in m then |key| + |m[key]| else 0;
      if Monus(TotalBytes(m), replaced) + |key| + |value| > MAX_TOTAL_BYTES then Err(TotalBytesExceeded)
      else Ok(m[key := value])
  }

  // Insertion accepts an entry exactly when the resulting map is within every bound.
  lemma InsertAcceptsExactly(m: Entries, key: seq<byte>, value: seq<byte>)
    requires Valid(m)
    ensures Inserted(m, key, value).Ok? <==> Valid(m[key := value])
    ensures Inserted(m, key, value).Ok? ==> Inserted(m, key, value).value == m[key := value]
  {
    hide KeyError, TotalBytes;
    var after := m[key := value];
    TotalOfUpdate(m, key, value);
    assert after.Keys == m.Keys + {key};
    assert key in after && after[key] == value;
    if Valid(after) {
      assert KeyError(key) == None;
    }
    if Inserted(m, key, value).Ok? {
      assert Valid(after);
    }
  }

  // A refused entry is refused for its key first, then for its value, then for the number of
  // entries, then for the total.
  lemma InsertErrors(m: Entries, key: seq<byte>, value: seq<byte>)
    requires Valid(m)
    ensures var r := Inserted(m, key, value);
            && (KeyError(key).Some? ==> r == Err(KeyError(key).value))
            && (KeyError(key).None? ==>
                  && (r == Err(ValueTooLarge) <==> |value| > MAX_VALUE_BYTES)
                  && (r == Err(EntryCapacityExceeded) <==>
                        |value| <= MAX_VALUE_BYTES && |m[key := value]| > MAX_ENTRIES)
                  && (r == Err(TotalBytesExceeded) <==>
                        && |value| <= MAX_VALUE_BYTES && |m[key := value]| <= MAX_ENTRIES
                        && TotalBytes(m[key := value]) > MAX_TOTAL_BYTES))
  {
    hide KeyError, TotalBytes;
    TotalOfUpdate(m, key, value);
    assert m[key := value].Keys == m.Keys + {key};
  }

  lemma {:induction false} KeyTextIsAscii(key: seq<byte>)
    requires KeyError(key) == None
    ensures Utf8(key) && |key| <= MAX_KEY_BYTES
  {
    assert forall b <- key :: KeyCharacter(b);
    AsciiIsUtf8(key);
  }

  // ---------------------------------------------------------------- the object

  method CountBytes(m: Entries) returns (total: nat)
    ensures total == TotalBytes(m)
  {
    total := 0;
    var rest := m;
    while rest != map[]
      invariant total + TotalBytes(rest) == TotalBytes(m)
      decreases |rest|
    {
      var key :| key in rest;
      TotalWithout(rest, key);
      assert (rest - {key}).Keys == rest.Keys - {key};
      total := total + |key| + |rest[key]|;
      rest := rest - {key};
    }
  }

  class MessageMetadata {
    var entries: Entries

    constructor ()
      ensures entries == map[] && Valid(entries)
    {
      entries := map[];
    }

    constructor From(initial: Entries)
      requires Valid(initial)
      ensures entries == initial
    {
      entries := initial;
    }

    // Either the new entry is in place and the displaced value is returned, or nothing changed.
    method Insert(key: seq<byte>, value: seq<byte>) returns (r: Result<Option<seq<byte>>, ErrorKind>)
      requires Valid(entries)
      modifies this
      ensures Valid(entries)
      ensures r.Ok? <==> Valid(old(entries)[key := value])
      ensures r.Ok? ==> entries == old(entries)[key := value]
      ensures r.Ok? ==> r.value == if key in old(entries) then Some(old(entries)[key]) else None
      ensures r.Err? ==> entries == old(entries) && Inserted(old(entries), key, value) == Err(r.error)
    {
      InsertAcceptsExactly(entries, key, value);
      var invalid := KeyError(key);
      if invalid.Some? { return Err(invalid.value); }
      if |value| > MAX_VALUE_BYTES { return Err(ValueTooLarge); }
      if key !in entries && |entries| >= MAX_ENTRIES { return Err(EntryCapacityExceeded); }
      var current := CountBytes(entries);
      var replaced := if key in entries then |key| + |entries[key]| else 0;
      if Monus(current, replaced) + |key| + |value| > MAX_TOTAL_BYTES { return Err(TotalBytesExceeded); }
      r := Ok(if key in entries then Some(entries[key]) else None);
      entries := entries[key := value];
    }

    method Remove(key: seq<byte>) returns (r: Option<seq<byte>>)
      requires Valid(entries)
      modifies this
      ensures Valid(entries) && entries == old(entries) - {key}
      ensures r == if key in old(entries) then Some(old(entries)[key]) else None
    {
      PartIsValid(entries - {key}, entries);
      r := if key in entries then Some(entries[key]) else None;
      entries := entries - {key};
    }
  }
}
