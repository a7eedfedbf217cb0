/** The extension block of a frame payload, and the capability list a HELLO carries in it. */
module Extensions {
  import opened BigEndian

  const MAX_U16 := 0xffff
  const MAX_U32 := 0xffff_ffff
  const MAX_BLOCK := 1024 * 1024 - 15
  const CAPABILITIES := 1

  datatype Field = Field(id: int, value: seq<Byte>)

  /** A codec error ends the call; which one it is makes no difference here. */
  datatype Result<+T> = Ok(value: T) | Malformed

  datatype Decoded = Decoded(core: seq<Byte>, capabilityIds: seq<int>)

  // ---------- Capability lists ----------

  /** Strictly ascending, above `previous`, and no more than 32 bits wide. */
  predicate Ascending(ids: seq<int>, previous: int) {
    ids == [] || (previous < ids[0] <= MAX_U32 && Ascending(ids[1..], ids[0]))
  }

  function IdsBytes(ids: seq<int>): (b: seq<Byte>)
    requires forall i :: 0 <= i < |ids| ==> 0 <= ids[i]
    ensures |b| == 4 * |ids|
  {
    if ids == [] then [] else IdsBytes(ids[..|ids| - 1]) + ToBytes(ids[|ids| - 1], 4)
  }

  predicate ValidCapabilities(ids: seq<int>) {
    |ids| <= MAX_U16 && Ascending(ids, 0)
  }

  lemma {:induction false} AscendingIsSorted(ids: seq<int>, previous: int)
    requires Ascending(ids, previous)
    ensures forall i :: 0 <= i < |ids| ==> previous < ids[i] <= MAX_U32
    ensures forall i, j :: 0 <= i < j < |ids| ==> ids[i] < ids[j]
  {
    if ids != [] {
      AscendingIsSorted(ids[1..], ids[0]);
      forall i, j | 0 <= i < j < |ids| ensures ids[i] < ids[j] {
        assert ids[j] == ids[1..][j - 1];
        assert i > 0 ==> ids[i] == ids[1..][i - 1];
      }
      forall i | 0 <= i < |ids| ensures previous < ids[i] <= MAX_U32 {
        assert i > 0 ==> ids[i] == ids[1..][i - 1];
      }
    }
  }

  lemma {:induction false} SortedIsAscending(ids: seq<int>, previous: int)
    requires forall i :: 0 <= i < |ids| ==> previous < ids[i] <= MAX_U32
    requires forall i, j :: 0 <= i < j < |ids| ==> ids[i] < ids[j]
    ensures Ascending(ids, previous)
    decreases |ids|
  {
    if ids != [] {
      SortedIsAscending(ids[1..], ids[0]);
    }
  }

  function CapabilityBytes(ids: seq<int>): seq<Byte>
    requires ValidCapabilities(ids)
  {
    AscendingIsSorted(ids, 0);
    ToBytes(|ids|, 2) + IdsBytes(ids)
  }

  /** The ids in a stretch of bytes, four bytes each. */
  function IdsIn(b: seq<Byte>, count: nat): (ids: seq<int>)
    requires |b| == 4 * count
    ensures |ids| == count
  {
    if count == 0 then [] else IdsIn(b[..4 * (count - 1)], count - 1) + [FromBytes(b[4 * (count - 1)..])]
  }

  function ParseCapabilities(value: seq<Byte>): Result<seq<int>> {
    if |value| < 2 then Malformed
    else
      var count := FromBytes(value[..2]);
      if |value| != 2 + 4 * count then Malformed
      else
        var ids := IdsIn(value[2..], count);
        if Ascending(ids, 0) then Ok(ids) else Malformed
  }

  lemma IdBehind(front: seq<Byte>, id: nat)
    requires id <= MAX_U32
    ensures var b := front + ToBytes(id, 4); b[..|front|] == front && FromBytes(b[|front|..]) == id
  {
    Widths();
    ToFrom(id, 4);
    assert (front + ToBytes(id, 4))[|front|..] == ToBytes(id, 4);
  }

  lemma {:induction false} IdsRoundTrip(ids: seq<int>)
    requires forall i :: 0 <= i < |ids| ==> 0 <= ids[i] <= MAX_U32
    ensures IdsIn(IdsBytes(ids), |ids|) == ids
  {
    if ids != [] {
      var last := |ids| - 1;
      IdsRoundTrip(ids[..last]);
      IdBehind(IdsBytes(ids[..last]), ids[last]);
    }
  }

  lemma {:induction false} IdsReadBack(b: seq<Byte>, count: nat)
    requires |b| == 4 * count
    ensures var ids := IdsIn(b, count);
            |ids| == count && (forall i :: 0 <= i < count ==> 0 <= ids[i] <= MAX_U32) && IdsBytes(ids) == b
  {
    if count > 0 {
      var split := 4 * (count - 1);
      IdsReadBack(b[..split], count - 1);
      var front, id := IdsIn(b[..split], count - 1), FromBytes(b[split..]);
      Widths();
      FromTo(b[split..]);
      assert IdsIn(b, count) == front + [id] && (front + [id])[..count - 1] == front;
      assert b == b[..split] + b[split..];
    }
  }

  /** A capability list written is read back. */
  lemma CapabilitiesRoundTrip(ids: seq<int>)
    requires ValidCapabilities(ids)
    ensures ParseCapabilities(CapabilityBytes(ids)) == Ok(ids)
  {
    AscendingIsSorted(ids, 0);
    Widths();
    ToFrom(|ids|, 2);
    IdsRoundTrip(ids);
    assert CapabilityBytes(ids)[..2] == ToBytes(|ids|, 2);
    assert CapabilityBytes(ids)[2..] == IdsBytes(ids);
  }

  /** A capability list is accepted only if it is valid and written as it would be. */
  lemma AcceptedCapabilities(value: seq<Byte>)
    requires ParseCapabilities(value).Ok?
    ensures var ids := ParseCapabilities(value).value;
            ValidCapabilities(ids) && CapabilityBytes(ids) == value
  {
    Widths();
    FromTo(value[..2]);
    IdsReadBack(value[2..], FromBytes(value[..2]));
    assert value == value[..2] + value[2..];
  }

  ghost predicate AscendingUpTo(ids: seq<int>, n: nat)
    requires n <= |ids|
  {
    && (forall i :: 0 <= i < n ==> 0 < ids[i] <= MAX_U32)
    && (forall i, j :: 0 <= i < j < n ==> ids[i] < ids[j])
  }

  lemma NotAscending(ids: seq<int>, n: nat)
    requires n < |ids| && (ids[n] <= (if n == 0 then 0 else ids[n - 1]) || ids[n] > MAX_U32)
    ensures !Ascending(ids, 0)
  {
    if Ascending(ids, 0) {
      AscendingIsSorted(ids, 0);
    }
  }

  /** The count and the first ids. */
  ghost function Written(ids: seq<int>, n: nat): seq<Byte>
    requires n <= |ids| && AscendingUpTo(ids, n)
  {
    ToBytes(|ids|, 2) + IdsBytes(ids[..n])
  }

  lemma WrittenNext(ids: seq<int>, n: nat)
    requires n < |ids| && AscendingUpTo(ids, n + 1)
    ensures Written(ids, n + 1) == Written(ids, n) + ToBytes(ids[n], 4)
  {
    assert ids[..n + 1][..n] == ids[..n];
    Regroup(ToBytes(|ids|, 2), IdsBytes(ids[..n]), ToBytes(ids[n], 4));
  }

  method PutId(result: array<Byte>, ghost ids: seq<int>, index: nat, id: int)
    requires result.Length == 2 + 4 * |ids| && index < |ids| && id == ids[index] && AscendingUpTo(ids, index + 1)
    requires result[..2 + 4 * index] == Written(ids, index)
    modifies result
    ensures result[..2 + 4 * (index + 1)] == Written(ids, index + 1)
  {
    PutBytes(result, 2 + 4 * index, ToBytes(id, 4));
    WrittenNext(ids, index);
  }

  method EncodeCapabilities(ids: seq<int>) returns (r: Result<seq<Byte>>)
    ensures r == if ValidCapabilities(ids) then Ok(CapabilityBytes(ids)) else Malformed
  {
    if |ids| > MAX_U16 {
      return Malformed;
    }
    var result := new Byte[2 + 4 * |ids|](_ => 0);
    PutBytes(result, 0, ToBytes(|ids|, 2));
    var previous := 0;
    for index := 0 to |ids|
      invariant if index == 0 then previous == 0 else previous == ids[index - 1]
      invariant AscendingUpTo(ids, index)
      invariant result[..2 + 4 * index] == Written(ids, index)
    {
      var id := ids[index];
      if id <= previous || id > MAX_U32 {
        NotAscending(ids, index);
        return Malformed;
      }
      PutId(result, ids, index, id);
      previous := id;
    }
    SortedIsAscending(ids, 0);
    assert ids[..|ids|] == ids && result[..] == result[..2 + 4 * |ids|];
    return Ok(result[..]);
  }

  // ---------- Extension blocks ----------

  predicate ValidField(f: Field) {
    0 < f.id <= MAX_U16 && |f.value| <= MAX_U32
  }

  predicate ValidFields(fields: seq<Field>) {
    fields == [] || (ValidField(fields[0]) && ValidFields(fields[1..]))
  }

  function FieldBytes(f: Field): (b: seq<Byte>)
    requires ValidField(f)
    ensures |b| == 6 + |f.value|
  {
    ToBytes(f.id, 2) + ToBytes(|f.value|, 4) + f.value
  }

  function FieldsBytes(fields: seq<Field>): seq<Byte>
    requires ValidFields(fields)
  {
    if fields == [] then [] else FieldBytes(fields[0]) + FieldsBytes(fields[1..])
  }

  function Block(core: seq<Byte>, fields: seq<Field>): seq<Byte>
    requires ValidFields(fields)
  {
    ToBytes(|core|, 4) + core + FieldsBytes(fields)
  }

  /** The field a stretch of bytes begins with. */
  function HeadField(b: seq<Byte>): (f: Result<Field>)
    ensures f.Ok? ==> 6 + |f.value.value| <= |b|
  {
    if |b| < 6 then Malformed
    else
      var id, size := FromBytes(b[..2]), FromBytes(b[2..6]);
      if id == 0 || size > |b| - 6 then Malformed else Ok(Field(id, b[6..6 + size]))
  }

  /** The fields in a stretch of bytes, whatever their order. */
  function ParseFields(b: seq<Byte>): Result<seq<Field>>
    decreases |b|
  {
    if b == [] then Ok([])
    else if HeadField(b).Malformed? then Malformed
    else
      var head := HeadField(b).value;
      var rest := ParseFields(b[6 + |head.value|..]);
      if rest.Malformed? then Malformed else Ok([head] + rest.value)
  }

  lemma FirstField(f: Field, rest: seq<Byte>)
    requires ValidField(f)
    ensures var b := FieldBytes(f) + rest;
            && |b| >= 6 && FromBytes(b[..2]) == f.id && FromBytes(b[2..6]) == |f.value|
            && b[6..6 + |f.value|] == f.value && b[6 + |f.value|..] == rest
  {
    var b := FieldBytes(f) + rest;
    Widths();
    ToFrom(f.id, 2);
    ToFrom(|f.value|, 4);
    assert b[..2] == ToBytes(f.id, 2) && b[2..6] == ToBytes(|f.value|, 4);
  }

  lemma ParseFirst(f: Field, rest: seq<Byte>)
    requires ValidField(f)
    ensures ParseFields(FieldBytes(f) + rest) ==
            if ParseFields(rest).Malformed? then Malformed else Ok([f] + ParseFields(rest).value)
  {
    FirstField(f, rest);
  }

  /** Fields written are read back. */
  lemma {:induction false} FieldsRoundTrip(fields: seq<Field>)
    requires ValidFields(fields)
    ensures ParseFields(FieldsBytes(fields)) == Ok(fields)
    decreases |fields|
  {
    if fields != [] {
      FieldsRoundTrip(fields[1..]);
      ParseFirst(fields[0], FieldsBytes(fields[1..]));
      assert fields == [fields[0]] + fields[1..];
    }
  }

  lemma FieldReadBack(b: seq<Byte>)
    requires HeadField(b).Ok?
    ensures var f := HeadField(b).value; ValidField(f) && b == FieldBytes(f) + b[6 + |f.value|..]
  {
    var size := FromBytes(b[2..6]);
    Widths();
    FromTo(b[..2]);
    FromTo(b[2..6]);
    assert b == b[..2] + b[2..6] + b[6..6 + size] + b[6 + size..];
  }

  /** Bytes accepted as fields are what writing those fields gives. */
  lemma {:induction false} AcceptedFields(b: seq<Byte>)
    requires ParseFields(b).Ok?
    ensures ValidFields(ParseFields(b).value) && FieldsBytes(ParseFields(b).value) == b
    decreases |b|
  {
    if b != [] {
      var head := HeadField(b).value;
      var rest := b[6 + |head.value|..];
      FieldReadBack(b);
      AcceptedFields(rest);
      assert ([head] + ParseFields(rest).value)[1..] == ParseFields(rest).value;
    }
  }

  /** The capability lists among the fields, in order. */
  function CapabilityFields(fields: seq<Field>): seq<seq<Byte>> {
    if fields == [] then []
    else if fields[0].id == CAPABILITIES then [fields[0].value] + CapabilityFields(fields[1..])
    else CapabilityFields(fields[1..])
  }

  /** A handshake needs exactly one capability list, and a good one; elsewhere fields are skipped. */
  function Interpret(core: seq<Byte>, fields: seq<Field>, handshake: bool): Result<Decoded> {
    if !handshake then Ok(Decoded(core, []))
    else
      var lists := CapabilityFields(fields);
      if |lists| != 1 || ParseCapabilities(lists[0]).Malformed? then Malformed
      else Ok(Decoded(core, ParseCapabilities(lists[0]).value))
  }

  function Decode(payload: seq<Byte>, handshake: bool, present: bool): Result<Decoded> {
    if !present then (if handshake then Malformed else Ok(Decoded(payload, [])))
    else if |payload| < 4 then Malformed
    else
      var coreEnd := 4 + FromBytes(payload[..4]);
      if coreEnd >= |payload| then Malformed
      else
        var fields := ParseFields(payload[coreEnd..]);
        if fields.Malformed? then Malformed else Interpret(payload[4..coreEnd], fields.value, handshake)
  }

  // ---------- What decoding gives ----------

  lemma BlockParts(core: seq<Byte>, fields: seq<Field>)
    requires ValidFields(fields) && |core| <= MAX_U32
    ensures var b := Block(core, fields);
            && |b| >= 4 + |core| && FromBytes(b[..4]) == |core|
            && b[4..4 + |core|] == core && b[4 + |core|..] == FieldsBytes(fields)
  {
    Widths();
    ToFrom(|core|, 4);
    assert Block(core, fields)[..4] == ToBytes(|core|, 4);
  }

  /** Decoding an encoded, non-empty list of fields returns the core and what the fields mean. */
  lemma BlockRoundTrip(core: seq<Byte>, fields: seq<Field>, handshake: bool)
    requires ValidFields(fields) && fields != [] && |core| <= MAX_U32
    ensures Decode(Block(core, fields), handshake, true) == Interpret(core, fields, handshake)
  {
    BlockParts(core, fields);
    FieldsRoundTrip(fields);
    assert FieldsBytes(fields) != [];
  }

  predicate NoneIsCapabilities(fields: seq<Field>) {
    forall i :: 0 <= i < |fields| ==> fields[i].id != CAPABILITIES
  }

  lemma {:induction false} OthersAreSkipped(others: seq<Field>, rest: seq<Field>)
    requires NoneIsCapabilities(others) && ValidFields(others) && ValidFields(rest)
    ensures ValidFields(others + rest) && CapabilityFields(others + rest) == CapabilityFields(rest)
    decreases |others|
  {
    if others == [] {
      assert others + rest == rest;
    } else {
      OthersAreSkipped(others[1..], rest);
      assert (others + rest)[1..] == others[1..] + rest;
    }
  }

  lemma ListIsFound(list: Field, after: seq<Field>)
    requires ValidField(list) && list.id == CAPABILITIES && ValidFields(after) && NoneIsCapabilities(after)
    ensures ValidFields([list] + after) && CapabilityFields([list] + after) == [list.value]
  {
    OthersAreSkipped(after, []);
    assert after + [] == after && ([list] + after)[1..] == after;
  }

  /** A HELLO with a capability list among any further fields gives back the core and the capability ids. */
  lemma HelloRoundTrip(core: seq<Byte>, ids: seq<int>, before: seq<Field>, after: seq<Field>)
    requires ValidCapabilities(ids) && |core| <= MAX_U32 && ValidFields(before) && ValidFields(after)
    requires NoneIsCapabilities(before) && NoneIsCapabilities(after)
    ensures var fields := before + ([Field(CAPABILITIES, CapabilityBytes(ids))] + after);
            ValidFields(fields) && Decode(Block(core, fields), true, true) == Ok(Decoded(core, ids))
  {
    var list := Field(CAPABILITIES, CapabilityBytes(ids));
    AscendingIsSorted(ids, 0);
    assert |CapabilityBytes(ids)| == 2 + 4 * |ids|;
    ListIsFound(list, after);
    OthersAreSkipped(before, [list] + after);
    BlockRoundTrip(core, before + ([list] + after), true);
    CapabilitiesRoundTrip(ids);
  }

  /** Bytes that parse as a core and fields are the block of that core and those fields. */
  lemma AcceptedIsBlock(payload: seq<Byte>)
    requires |payload| >= 4 && 4 + FromBytes(payload[..4]) < |payload|
    requires ParseFields(payload[4 + FromBytes(payload[..4])..]).Ok?
    ensures var coreEnd := 4 + FromBytes(payload[..4]);
            var fields := ParseFields(payload[coreEnd..]).value;
            && ValidFields(fields) && fields != [] && coreEnd - 4 <= MAX_U32
            && payload == Block(payload[4..coreEnd], fields)
  {
    var coreEnd := 4 + FromBytes(payload[..4]);
    Widths();
    FromTo(payload[..4]);
    AcceptedFields(payload[coreEnd..]);
    assert payload == payload[..4] + payload[4..coreEnd] + payload[coreEnd..];
  }

  /**
   Whatever the bytes: a payload with extensions is accepted only if it is the encoding of its core and a
   non-empty list of valid fields, and the capability ids returned are strictly ascending and not zero.
   */
  lemma AcceptedPayload(payload: seq<Byte>, handshake: bool)
    requires Decode(payload, handshake, true).Ok?
    ensures var d := Decode(payload, handshake, true).value;
            && ValidCapabilities(d.capabilityIds)
            && exists fields :: ValidFields(fields) && fields != [] && payload == Block(d.core, fields)
  {
    AcceptedIsBlock(payload);
    if handshake {
      AcceptedCapabilities(CapabilityFields(ParseFields(payload[4 + FromBytes(payload[..4])..]).value)[0]);
    }
  }

  lemma {:induction false} NoLists(fields: seq<Field>)
    ensures CapabilityFields(fields) == [] <==> NoneIsCapabilities(fields)
  {
    if fields != [] {
      NoLists(fields[1..]);
      assert forall i :: 0 < i < |fields| ==> fields[i] == fields[1..][i - 1];
    }
  }

  /** Field i is the only capability list, with this value. */
  predicate OnlyAt(fields: seq<Field>, i: nat, value: seq<Byte>) {
    && i < |fields| && fields[i] == Field(CAPABILITIES, value)
    && forall j :: 0 <= j < |fields| && j != i ==> fields[j].id != CAPABILITIES
  }

  lemma {:induction false} SoleList(fields: seq<Field>, value: seq<Byte>)
    ensures CapabilityFields(fields) == [value] <==> exists i: nat :: OnlyAt(fields, i, value)
  {
    if fields != [] {
      var rest := fields[1..];
      SoleList(rest, value);
      NoLists(rest);
      assert forall i :: 0 < i < |fields| ==> fields[i] == rest[i - 1];
      if fields[0].id == CAPABILITIES {
        assert CapabilityFields(fields) == [value] <==> OnlyAt(fields, 0, value);
        assert forall i: nat :: i > 0 ==> !OnlyAt(fields, i, value);
      } else {
        assert !OnlyAt(fields, 0, value);
        forall i: nat | i > 0 ensures OnlyAt(fields, i, value) <==> OnlyAt(rest, i - 1, value) {
          assert forall j :: 0 <= j < |rest| ==> rest[j] == fields[j + 1];
        }
        if i: nat :| OnlyAt(rest, i, value) {
          assert OnlyAt(fields, i + 1, value);
        }
      }
    }
  }

  /** These fields, around this core, are the payload, and say what was decoded. */
  ghost predicate Carries(payload: seq<Byte>, fields: seq<Field>, d: Decoded, handshake: bool) {
    && ValidFields(fields) && fields != [] && |d.core| <= MAX_U32 && payload == Block(d.core, fields)
    && if handshake
       then ValidCapabilities(d.capabilityIds) && exists i: nat :: OnlyAt(fields, i, CapabilityBytes(d.capabilityIds))
       else d.capabilityIds == []
  }

  /**
   Whatever the bytes: a payload with extensions is accepted, as this, if and only if it is the encoding of that core
   and some valid fields, exactly one of which, for a HELLO, is a capability list, namely that of these ids. One
   without extensions is its own core, and no HELLO.
   */
  lemma AcceptedIff(payload: seq<Byte>, handshake: bool, d: Decoded)
    ensures Decode(payload, handshake, true) == Ok(d) <==> exists fields :: Carries(payload, fields, d, handshake)
    ensures Decode(payload, handshake, false) == Ok(d) <==> !handshake && d == Decoded(payload, [])
  {
    if Decode(payload, handshake, true) == Ok(d) {
      AcceptedIsBlock(payload);
      var fields := ParseFields(payload[4 + FromBytes(payload[..4])..]).value;
      if handshake {
        var list := CapabilityFields(fields)[0];
        AcceptedCapabilities(list);
        SoleList(fields, list);
      }
      assert Carries(payload, fields, d, handshake);
    }
    forall fields | Carries(payload, fields, d, handshake) ensures Decode(payload, handshake, true) == Ok(d) {
      BlockRoundTrip(d.core, fields, handshake);
      if handshake {
        SoleList(fields, CapabilityBytes(d.capabilityIds));
        CapabilitiesRoundTrip(d.capabilityIds);
      }
    }
  }

  // ---------- The loops ----------

  predicate AscendingFields(fields: seq<Field>, previous: int) {
    fields == [] || (previous < fields[0].id <= MAX_U16 && AscendingFields(fields[1..], fields[0].id))
  }

  function FieldsSize(fields: seq<Field>): nat {
    if fields == [] then 0 else 6 + |fields[0].value| + FieldsSize(fields[1..])
  }

  /** The encoder accepts ids that ascend from one, in a block that fits a frame. */
  predicate Encodable(core: seq<Byte>, fields: seq<Field>) {
    4 + |core| + FieldsSize(fields) <= MAX_BLOCK && AscendingFields(fields, 0)
  }

  lemma {:induction false} EncodableFieldsValid(fields: seq<Field>, previous: nat)
    requires FieldsSize(fields) <= MAX_BLOCK && AscendingFields(fields, previous)
    ensures ValidFields(fields) && |FieldsBytes(fields)| == FieldsSize(fields)
    decreases |fields|
  {
    if fields != [] {
      EncodableFieldsValid(fields[1..], fields[0].id);
    }
  }

  // ---------- What the encoder can produce ----------

  /** The encoder turns this core and these fields into this payload. */
  ghost predicate Encodes(core: seq<Byte>, fields: seq<Field>, payload: seq<Byte>) {
    fields != [] && Encodable(core, fields) && ValidFields(fields) && payload == Block(core, fields)
  }

  lemma BlockIsInjective(core: seq<Byte>, fields: seq<Field>, core2: seq<Byte>, fields2: seq<Field>)
    requires ValidFields(fields) && |core| <= MAX_U32 && ValidFields(fields2) && |core2| <= MAX_U32
    requires Block(core, fields) == Block(core2, fields2)
    ensures core == core2 && fields == fields2
  {
    BlockParts(core, fields);
    BlockParts(core2, fields2);
    FieldsRoundTrip(fields);
    FieldsRoundTrip(fields2);
  }

  /** A block is one the encoder can produce if and only if its own fields ascend and it fits. */
  lemma ProducedIff(core: seq<Byte>, fields: seq<Field>)
    requires ValidFields(fields) && fields != [] && |core| <= MAX_U32
    ensures (exists core2, fields2 :: Encodes(core2, fields2, Block(core, fields))) <==> Encodable(core, fields)
  {
    var payload := Block(core, fields);
    if Encodable(core, fields) {
      assert Encodes(core, fields, payload);
    } else if exists core2, fields2 :: Encodes(core2, fields2, payload) {
      var core2, fields2 :| Encodes(core2, fields2, payload);
      BlockIsInjective(core, fields, core2, fields2);
    }
  }

  /** Of the payloads the decoder accepts, the encoder produces exactly those whose fields ascend in a block that fits. */
  lemma AcceptedIsProducedIff(payload: seq<Byte>, handshake: bool)
    requires Decode(payload, handshake, true).Ok?
    ensures var coreEnd := 4 + FromBytes(payload[..4]);
            (exists core, fields :: Encodes(core, fields, payload)) <==>
              Encodable(payload[4..coreEnd], ParseFields(payload[coreEnd..]).value)
  {
    var coreEnd := 4 + FromBytes(payload[..4]);
    AcceptedIsBlock(payload);
    ProducedIff(payload[4..coreEnd], ParseFields(payload[coreEnd..]).value);
  }

  /** Fields whose ids do not ascend: a capability list, which has the lowest id, behind another field. */
  function ListLast(): seq<Field> {
    [Field(CAPABILITIES + 1, [])] + ([Field(CAPABILITIES, CapabilityBytes([]))] + [])
  }

  /** A HELLO with these fields is accepted, and the encoder cannot produce it. */
  lemma OutOfOrderAccepted()
    ensures ValidFields(ListLast()) && Decode(Block([], ListLast()), true, true) == Ok(Decoded([], []))
    ensures !exists core, fields :: Encodes(core, fields, Block([], ListLast()))
  {
    HelloRoundTrip([], [], [Field(CAPABILITIES + 1, [])], []);
    assert ListLast()[1..][0].id == CAPABILITIES;
    ProducedIff([], ListLast());
  }

  // ---------- The methods ----------

  method SizeOf(core: seq<Byte>, fields: seq<Field>) returns (size: nat)
    ensures size == 4 + |core| + FieldsSize(fields)
  {
    size := 4 + |core|;
    for i := 0 to |fields|
      invariant size + FieldsSize(fields[i..]) == 4 + |core| + FieldsSize(fields)
    {
      assert fields[i..][1..] == fields[i + 1..];
      size := size + 6 + |fields[i].value|;
    }
  }

  /** What was written, followed by the fields left to write, is what was to be written. */
  ghost predicate Writing(written: seq<Byte>, whole: seq<Byte>, rest: seq<Field>) {
    ValidFields(rest) ==> written + FieldsBytes(rest) == whole
  }

  method WriteField(target: array<Byte>, cursor: nat, f: Field, ghost whole: seq<Byte>, ghost rest: seq<Field>)
    requires ValidField(f) && rest != [] && rest[0] == f && cursor + FieldsSize(rest) == target.Length
    requires Writing(target[..cursor], whole, rest)
    modifies target
    ensures cursor + 6 + |f.value| + FieldsSize(rest[1..]) == target.Length
    ensures Writing(target[..cursor + 6 + |f.value|], whole, rest[1..])
  {
    ghost var written := target[..cursor];
    PutBytes(target, cursor, FieldBytes(f));
    if ValidFields(rest[1..]) {
      Regroup(written, FieldBytes(f), FieldsBytes(rest[1..]));
    }
  }

  /** Writes the next field if its id ascends, and says where the one after it goes. */
  method WriteNext(target: array<Byte>, cursor: nat, previous: nat, f: Field, ghost whole: seq<Byte>, ghost rest: seq<Field>)
    returns (ok: bool, next: nat)
    requires rest != [] && rest[0] == f && cursor + FieldsSize(rest) == target.Length <= MAX_BLOCK
    requires Writing(target[..cursor], whole, rest)
    modifies target
    ensures !ok ==> !AscendingFields(rest, previous)
    ensures ok ==> f.id > 0 && (AscendingFields(rest, previous) <==> AscendingFields(rest[1..], f.id))
    ensures ok ==> (ValidFields(rest) <==> ValidFields(rest[1..]))
    ensures ok ==> next + FieldsSize(rest[1..]) == target.Length && Writing(target[..next], whole, rest[1..])
  {
    if f.id <= previous || f.id > MAX_U16 {
      return false, cursor;
    }
    WriteField(target, cursor, f, whole, rest);
    return true, cursor + 6 + |f.value|;
  }

  /** Writes fields behind what a buffer begins with, while their ids ascend. */
  method WriteFields(target: array<Byte>, start: nat, fields: seq<Field>) returns (ok: bool)
    requires target.Length == start + FieldsSize(fields) <= MAX_BLOCK
    modifies target
    ensures ok <==> AscendingFields(fields, 0)
    ensures ok && ValidFields(fields) ==> target[..] == old(target[..start]) + FieldsBytes(fields)
  {
    ghost var valid := ValidFields(fields);
    ghost var whole := if valid then target[..start] + FieldsBytes(fields) else [];
    var cursor: nat, previous: nat := start, 0;
    ghost var ascends, rest := AscendingFields(fields, 0), fields;
    for i := 0 to |fields|
      invariant rest == fields[i..] && cursor + FieldsSize(rest) == target.Length
      invariant ascends <==> AscendingFields(rest, previous)
      invariant (valid <==> ValidFields(rest)) && Writing(target[..cursor], whole, rest)
    {
      ok, cursor := WriteNext(target, cursor, previous, fields[i], whole, rest);
      if !ok {
        return;
      }
      previous := fields[i].id;
      rest := rest[1..];
    }
    assert target[..cursor] + [] == target[..];
    return true;
  }

  method EncodeExtensions(core: seq<Byte>, fields: seq<Field>) returns (r: Result<seq<Byte>>)
    ensures fields == [] ==> r == Ok(core)
    ensures fields != [] ==> (r.Ok? <==> Encodable(core, fields))
    ensures fields != [] && Encodable(core, fields) ==> ValidFields(fields) && r == Ok(Block(core, fields))
  {
    if |fields| == 0 {
      return Ok(core);
    }
    var size := SizeOf(core, fields);
    if size > MAX_BLOCK {
      return Malformed;
    }
    var result := new Byte[size](_ => 0);
    PutBytes(result, 0, ToBytes(|core|, 4));
    PutBytes(result, 4, core);
    assert result[..4 + |core|] == ToBytes(|core|, 4) + core;
    var ok := WriteFields(result, 4 + |core|, fields);
    if !ok {
      return Malformed;
    }
    EncodableFieldsValid(fields, 0);
    return Ok(result[..]);
  }

  datatype Found = Nothing | Ids(ids: seq<int>)

  /** One field of the pass: where the next one begins and what is found by then, unless it is at fault. */
  function ScanNext(payload: seq<Byte>, cursor: nat, handshake: bool, found: Found): (r: Result<(nat, Found)>)
    requires cursor < |payload|
    ensures r.Ok? ==> cursor < r.value.0 <= |payload|
  {
    if |payload| - cursor < 6 then Malformed
    else
      var id, size := FromBytes(payload[cursor..cursor + 2]), FromBytes(payload[cursor + 2..cursor + 6]);
      if id == 0 || size > |payload| - cursor - 6 then Malformed
      else if handshake && id == CAPABILITIES then
        var list := ParseCapabilities(payload[cursor + 6..cursor + 6 + size]);
        if found.Ids? || list.Malformed? then Malformed else Ok((cursor + 6 + size, Ids(list.value)))
      else Ok((cursor + 6 + size, found))
  }

  /** The decoder's pass over the fields, remembering the capability list it has found. */
  function Scan(b: seq<Byte>, handshake: bool, found: Found): Result<Found>
    decreases |b|
  {
    if b == [] then Ok(found)
    else
      var next := ScanNext(b, 0, handshake, found);
      if next.Malformed? then Malformed else Scan(b[next.value.0..], handshake, next.value.1)
  }

  /** One round of the pass, by the field it meets. */
  lemma NextMeans(b: seq<Byte>, handshake: bool, found: Found)
    requires b != []
    ensures ScanNext(b, 0, handshake, found) ==
            if HeadField(b).Malformed? then Malformed
            else
              var f := HeadField(b).value;
              if !handshake || f.id != CAPABILITIES then Ok((6 + |f.value|, found))
              else if found.Ids? || ParseCapabilities(f.value).Malformed? then Malformed
              else Ok((6 + |f.value|, Ids(ParseCapabilities(f.value).value)))
  {
  }

  /** What the pass is to find among these fields, after what it has found before. */
  function Meant(fields: seq<Field>, handshake: bool, found: Found): Result<Found> {
    var lists := CapabilityFields(fields);
    if !handshake || |lists| == 0 then Ok(found)
    else if found.Ids? || |lists| > 1 || ParseCapabilities(lists[0]).Malformed? then Malformed
    else Ok(Ids(ParseCapabilities(lists[0]).value))
  }

  lemma MeantFirst(f: Field, rest: seq<Field>, handshake: bool, found: Found)
    ensures Meant([f] + rest, handshake, found) ==
            if !handshake || f.id != CAPABILITIES then Meant(rest, handshake, found)
            else if found.Ids? || ParseCapabilities(f.value).Malformed? then Malformed
            else Meant(rest, handshake, Ids(ParseCapabilities(f.value).value))
  {
    assert ([f] + rest)[1..] == rest;
  }

  /** The pass finds what the fields mean: nothing, the one good list, or a fault. */
  lemma {:induction false} ScanMeans(b: seq<Byte>, handshake: bool, found: Found)
    ensures Scan(b, handshake, found) ==
            if ParseFields(b).Malformed? then Malformed else Meant(ParseFields(b).value, handshake, found)
    decreases |b|
  {
    if b != [] {
      NextMeans(b, handshake, found);
      if HeadField(b).Ok? {
        var f := HeadField(b).value;
        var rest := b[6 + |f.value|..];
        ScanMeans(rest, handshake, found);
        if handshake && f.id == CAPABILITIES && ParseCapabilities(f.value).Ok? {
          ScanMeans(rest, handshake, Ids(ParseCapabilities(f.value).value));
        }
        if ParseFields(rest).Ok? {
          MeantFirst(f, ParseFields(rest).value, handshake, found);
        }
      }
    }
  }

  method ReadId(value: seq<Byte>, ghost count: nat, index: nat) returns (id: nat)
    requires |value| == 2 + 4 * count && index < count
    ensures id == IdsIn(value[2..], count)[index] && id <= MAX_U32
  {
    id := FromBytes(value[2 + 4 * index..6 + 4 * index]);
    IdInList(value, count, index);
    Widths();
    FromTo(value[2 + 4 * index..6 + 4 * index]);
  }

  /** Reads the ids of a list that has room for them, while they ascend. */
  method ReadIds(value: seq<Byte>, count: nat) returns (r: Result<seq<int>>)
    requires |value| == 2 + 4 * count
    ensures r == if Ascending(IdsIn(value[2..], count), 0) then Ok(IdsIn(value[2..], count)) else Malformed
  {
    ghost var all := IdsIn(value[2..], count);
    var ids, previous := [], 0;
    assert all[0..] == all;
    for index := 0 to count
      invariant ids == all[..index]
      invariant Ascending(all, 0) <==> Ascending(all[index..], previous)
    {
      var id := ReadId(value, count, index);
      AscendingNext(all, index, previous);
      if id <= previous {
        return Malformed;
      }
      ids := ids + [id];
      previous := id;
    }
    assert all[count..] == [] && all[..count] == all;
    return Ok(ids);
  }

  /** Reads one capability list. */
  method ReadCapabilities(payload: seq<Byte>, cursor: nat, size: nat) returns (r: Result<seq<int>>)
    requires cursor + size <= |payload|
    ensures r == ParseCapabilities(payload[cursor..cursor + size])
  {
    var value := payload[cursor..cursor + size];
    if size < 2 {
      return Malformed;
    }
    var count := FromBytes(value[..2]);
    if size != 2 + count * 4 {
      return Malformed;
    }
    r := ReadIds(value, count);
  }

  lemma AscendingNext(ids: seq<int>, index: nat, previous: int)
    requires index < |ids| && ids[index] <= MAX_U32
    ensures Ascending(ids[index..], previous) <==> previous < ids[index] && Ascending(ids[index + 1..], ids[index])
  {
    assert ids[index..][1..] == ids[index + 1..];
  }

  lemma IdInList(value: seq<Byte>, count: nat, index: nat)
    requires |value| == 2 + 4 * count && index < count
    ensures IdsIn(value[2..], count)[index] == FromBytes(value[2 + 4 * index..6 + 4 * index])
  {
    IdAt(value[2..], count, index);
    PartOfRest(value, 2, 4 * index, 4 * index + 4);
  }

  lemma {:induction false} IdAt(b: seq<Byte>, count: nat, index: nat)
    requires |b| == 4 * count && index < count
    ensures IdsIn(b, count)[index] == FromBytes(b[4 * index..4 * index + 4])
    decreases count
  {
    var split := 4 * (count - 1);
    if index < count - 1 {
      IdAt(b[..split], count - 1, index);
      PartOfFront(b, split, 4 * index, 4 * index + 4);
    } else {
      assert b[split..] == b[split..split + 4];
    }
  }

  /** One round of the pass, read from the payload itself. */
  lemma NextOfRest(payload: seq<Byte>, cursor: nat, handshake: bool, found: Found)
    requires cursor < |payload|
    ensures var next := ScanNext(payload, cursor, handshake, found);
            ScanNext(payload[cursor..], 0, handshake, found) ==
            if next.Malformed? then Malformed else Ok((next.value.0 - cursor, next.value.1))
  {
    if cursor + 6 <= |payload| {
      var size := FromBytes(payload[cursor + 2..cursor + 6]);
      PartOfRest(payload, cursor, 0, 2);
      PartOfRest(payload, cursor, 2, 6);
      if size <= |payload| - cursor - 6 {
        PartOfRest(payload, cursor, 6, 6 + size);
      }
    }
  }

  lemma ScanAt(payload: seq<Byte>, cursor: nat, handshake: bool, found: Found)
    requires cursor < |payload|
    ensures var next := ScanNext(payload, cursor, handshake, found);
            Scan(payload[cursor..], handshake, found) ==
            if next.Malformed? then Malformed else Scan(payload[next.value.0..], handshake, next.value.1)
  {
    var next := ScanNext(payload, cursor, handshake, found);
    NextOfRest(payload, cursor, handshake, found);
    if next.Ok? {
      PartOfRest(payload, cursor, 0, next.value.0 - cursor);
    }
  }

  method ScanField(payload: seq<Byte>, cursor: nat, handshake: bool, found: Found) returns (r: Result<(nat, Found)>)
    requires cursor < |payload|
    ensures r == ScanNext(payload, cursor, handshake, found)
  {
    if |payload| - cursor < 6 {
      return Malformed;
    }
    var id, size := FromBytes(payload[cursor..cursor + 2]), FromBytes(payload[cursor + 2..cursor + 6]);
    if id == 0 || size > |payload| - cursor - 6 {
      return Malformed;
    }
    if !handshake || id != CAPABILITIES {
      return Ok((cursor + 6 + size, found));
    }
    var list := ReadCapabilities(payload, cursor + 6, size);
    if found != Nothing || list.Malformed? {
      return Malformed;
    }
    return Ok((cursor + 6 + size, Ids(list.value)));
  }

  method ScanFields(payload: seq<Byte>, coreEnd: nat, handshake: bool) returns (r: Result<Found>)
    requires coreEnd <= |payload|
    ensures r == Scan(payload[coreEnd..], handshake, Nothing)
  {
    var cursor, capabilityIds := coreEnd, Nothing;
    while cursor < |payload|
      invariant coreEnd <= cursor <= |payload|
      invariant Scan(payload[cursor..], handshake, capabilityIds) == Scan(payload[coreEnd..], handshake, Nothing)
      decreases |payload| - cursor
    {
      ScanAt(payload, cursor, handshake, capabilityIds);
      var scanned := ScanField(payload, cursor, handshake, capabilityIds);
      if scanned.Malformed? {
        return Malformed;
      }
      cursor, capabilityIds := scanned.value.0, scanned.value.1;
    }
    return Ok(capabilityIds);
  }

  method DecodeExtensions(payload: seq<Byte>, handshake: bool, present: bool) returns (r: Result<Decoded>)
    ensures r == Decode(payload, handshake, present)
  {
    if !present {
      return if handshake then Malformed else Ok(Decoded(payload, []));
    }
    if |payload| < 4 {
      return Malformed;
    }
    var coreEnd := 4 + FromBytes(payload[..4]);
    if coreEnd >= |payload| {
      return Malformed;
    }
    ScanMeans(payload[coreEnd..], handshake, Nothing);
    var found := ScanFields(payload, coreEnd, handshake);
    if found.Malformed? || (handshake && found.value == Nothing) {
      return Malformed;
    }
    return Ok(Decoded(payload[4..coreEnd], if found.value.Ids? then found.value.ids else []));
  }
}
