/** The strict and the lenient frame decoder, over tables of named fields. */
module Zcd {
  import opened Options
  import opened Bytes

  datatype FieldType = TBool | TU8 | TU32 | TU64 | TU128 | TChecksum256 | TString | TBytes | TArray

  datatype Field = Field(ty: FieldType, name: string, size: nat)

  /** A decoded field: the bytes it spans. */
  datatype Entry = Entry(slice: seq<Byte>, size: nat, ty: FieldType)

  type Fields = map<string, Entry>

  datatype ZcdError =
    | Truncated(field: string, expected: nat, remaining: nat)
    | Malformed(field: string, expected: nat, actual: nat)
    | MissingField
    | TypeMismatch

  function TypeWidth(ty: FieldType): Option<nat> {
    match ty
    case TBool => Some(1)
    case TU8 => Some(1)
    case TU32 => Some(4)
    case TU64 => Some(8)
    case TU128 => Some(16)
    case TChecksum256 => Some(32)
    case _ => None
  }

  const RESULT_V0_FIELDS: seq<Field> := [Field(TU8, "variant", 1), Field(TBytes, "data", 0)]

  const STATUS_RESULT_V0_FIELDS: seq<Field> := [
    Field(TU32, "head_block_num", 4),
    Field(TChecksum256, "head_block_id", 32),
    Field(TU32, "last_irreversible_block_num", 4),
    Field(TChecksum256, "last_irreversible_block_id", 32),
    Field(TU32, "trace_begin_block", 4),
    Field(TU32, "trace_end_block", 4),
    Field(TU32, "chain_state_begin_block", 4),
    Field(TU32, "chain_state_end_block", 4),
    Field(TChecksum256, "chain_id", 32)]

  const STATUS_RESULT_V1_FIELDS: seq<Field> := STATUS_RESULT_V0_FIELDS + [
    Field(TU32, "finality_data_begin_block", 4),
    Field(TU32, "finality_data_end_block", 4)]

  // -------------------------------------------------- the layout of a table

  /** A table of fixed-width fields with distinct names. */
  ghost predicate FixedTable(fields: seq<Field>) {
    && (forall i | 0 <= i < |fields| :: TypeWidth(fields[i].ty) == Some(fields[i].size))
    && (forall i, j | 0 <= i < j < |fields| :: fields[i].name != fields[j].name)
  }

  /** Where field `i` starts; at `|fields|`, where the table ends. */
  function Offset(fields: seq<Field>, i: nat): nat
    requires i <= |fields|
  {
    if i == 0 then 0 else Offset(fields, i - 1) + fields[i - 1].size
  }

  /** Field `i` as it lies in `buf`. */
  function Span(buf: seq<Byte>, fields: seq<Field>, i: nat): Entry
    requires i < |fields| && Offset(fields, i + 1) <= |buf|
  {
    Entry(buf[Offset(fields, i)..Offset(fields, i + 1)], fields[i].size, fields[i].ty)
  }

  /** The first `n` fields of the table in `buf`, by name. */
  function FieldMap(buf: seq<Byte>, fields: seq<Field>, n: nat): Fields
    requires n <= |fields| && Offset(fields, n) <= |buf|
  {
    if n == 0 then map[] else FieldMap(buf, fields, n - 1)[fields[n - 1].name := Span(buf, fields, n - 1)]
  }

  /** How many leading fields `len` bytes hold entirely. */
  function Whole(fields: seq<Field>, len: nat): (k: nat)
    ensures k <= |fields| && Offset(fields, k) <= len
    ensures k < |fields| ==> len < Offset(fields, k + 1)
  {
    WholeFrom(fields, len, 0)
  }

  function WholeFrom(fields: seq<Field>, len: nat, i: nat): (k: nat)
    requires i <= |fields| && Offset(fields, i) <= len
    ensures i <= k <= |fields| && Offset(fields, k) <= len
    ensures k < |fields| ==> len < Offset(fields, k + 1)
    decreases |fields| - i
  {
    if i < |fields| && Offset(fields, i + 1) <= len then WholeFrom(fields, len, i + 1) else i
  }

  lemma {:induction false} OffsetMonotone(fields: seq<Field>, i: nat, j: nat)
    requires i <= j <= |fields|
    ensures Offset(fields, i) <= Offset(fields, j)
  {
    if i < j { OffsetMonotone(fields, i, j - 1); }
  }

  lemma OffsetGrows(fields: seq<Field>, i: nat)
    requires FixedTable(fields) && i < |fields|
    ensures fields[i].ty != TArray && fields[i].size > 0
    ensures Offset(fields, i) < Offset(fields, i + 1) == Offset(fields, i) + fields[i].size
  {
  }

  lemma FieldMapNext(buf: seq<Byte>, fields: seq<Field>, i: nat)
    requires i < |fields| && Offset(fields, i + 1) <= |buf|
    ensures Offset(fields, i) <= |buf|
    ensures FieldMap(buf, fields, i + 1) == FieldMap(buf, fields, i)[fields[i].name := Span(buf, fields, i)]
  {
  }

  /** The fields a buffer holds are those whose end is inside it. */
  lemma WholeIs(fields: seq<Field>, len: nat, k: nat)
    requires k <= |fields| && Offset(fields, k) <= len && (k < |fields| ==> len < Offset(fields, k + 1))
    ensures Whole(fields, len) == k
  {
    var w := Whole(fields, len);
    if w < k { OffsetMonotone(fields, w + 1, k); }
    if k < w { OffsetMonotone(fields, k + 1, w); }
  }

  // --------------------------------------------------------- strict decoding

  /** The verdict on a buffer, from where it ends: past the table, before an optional last
      field, on a boundary, or inside a field. */
  function Strict(buf: seq<Byte>, fields: seq<Field>, optional: Option<string>): Result<Fields, ZcdError> {
    var k := Whole(fields, |buf|);
    var rest := |buf| - Offset(fields, k);
    if k == |fields| then Ok(FieldMap(buf, fields, k))
    else if rest == 0 && k == |fields| - 1 && optional == Some(fields[k].name) then Ok(FieldMap(buf, fields, k))
    else if rest == 0 then Err(Truncated(fields[k].name, fields[k].size, 0))
    else Err(Malformed(fields[k].name, fields[k].size, rest))
  }

  /** Walk the fields of a status table. */
  method DecodeFixedFields(buf: seq<Byte>, fields: seq<Field>, optional: Option<string>)
    returns (r: Result<Fields, ZcdError>)
    ensures FixedTable(fields) ==> r == Strict(buf, fields, optional)
  {
    var offset: nat, found: Fields := 0, map[];
    var i := 0;
    while i < |fields|
      invariant 0 <= i <= |fields|
      invariant FixedTable(fields) ==> offset == Offset(fields, i)
      invariant offset <= |buf|
      invariant FixedTable(fields) ==> found == FieldMap(buf, fields, i)
    {
      var f := fields[i];
      var width := TypeWidth(f.ty);
      if width.None? {
        return Err(Malformed(f.name, f.size, 0));
      }
      if width.value != f.size {
        return Err(Malformed(f.name, width.value, f.size));
      }
      var remaining := |buf| - offset;
      if remaining < f.size && FixedTable(fields) {
        WholeIs(fields, |buf|, i);
      }
      if remaining == 0 && optional == Some(f.name) && i == |fields| - 1 {
        break;
      }
      if remaining < f.size {
        return Err(if remaining == 0 then Truncated(f.name, f.size, 0) else Malformed(f.name, f.size, remaining));
      }
      found := found[f.name := Entry(buf[offset..offset + f.size], f.size, f.ty)];
      offset := offset + f.size;
      i := i + 1;
    }
    if i == |fields| && FixedTable(fields) { WholeIs(fields, |buf|, i); }
    r := Ok(found);
  }

  /** Strict decoding succeeds exactly when the whole table fits, or the buffer ends exactly
      before an optional last field. Otherwise the error names the one field whose span holds
      the end of the buffer: truncated on its first byte, malformed inside. */
  lemma StrictExact(buf: seq<Byte>, fields: seq<Field>, optional: Option<string>, i: nat)
    requires FixedTable(fields)
    ensures Strict(buf, fields, optional).Ok? <==>
              || Offset(fields, |fields|) <= |buf|
              || (|fields| > 0 && optional == Some(fields[|fields| - 1].name) && |buf| == Offset(fields, |fields| - 1))
    ensures Strict(buf, fields, optional).Err? && i < |fields| && Offset(fields, i) <= |buf| < Offset(fields, i + 1) ==>
              Strict(buf, fields, optional).error
              == if |buf| == Offset(fields, i) then Truncated(fields[i].name, fields[i].size, 0)
                 else Malformed(fields[i].name, fields[i].size, |buf| - Offset(fields, i))
  {
    hide FieldMap, Offset, Whole;
    var n := |fields|;
    if Offset(fields, n) <= |buf| { WholeIs(fields, |buf|, n); }
    if n > 0 {
      OffsetGrows(fields, n - 1);
      if |buf| == Offset(fields, n - 1) { WholeIs(fields, |buf|, n - 1); }
    }
    if i < n && Offset(fields, i) <= |buf| < Offset(fields, i + 1) { WholeIs(fields, |buf|, i); }
    OffsetMonotone(fields, Whole(fields, |buf|), n);
  }

  /** The bytes of field `i` of a decoded buffer, for every field that was decoded. */
  lemma {:induction false} FieldMapAt(buf: seq<Byte>, fields: seq<Field>, n: nat, i: nat)
    requires FixedTable(fields) && i < n <= |fields| && Offset(fields, n) <= |buf|
    ensures Offset(fields, i + 1) <= |buf|
    ensures fields[i].name in FieldMap(buf, fields, n)
    ensures FieldMap(buf, fields, n)[fields[i].name] == Span(buf, fields, i)
  {
    OffsetMonotone(fields, i + 1, n);
    if i < n - 1 { FieldMapAt(buf, fields, n - 1, i); }
  }

  lemma {:induction false} FieldMapOnly(buf: seq<Byte>, fields: seq<Field>, n: nat, name: string)
    requires n <= |fields| && Offset(fields, n) <= |buf| && name in FieldMap(buf, fields, n)
    ensures exists i :: 0 <= i < n && fields[i].name == name
  {
    if n > 0 && fields[n - 1].name != name {
      FieldMapOnly(buf, fields, n - 1, name);
    }
  }

  // -------------------------------------------------------- lenient decoding

  /** The lenient walk from field `i`, which stops at the first field that does not fit. */
  function Lenient(buf: seq<Byte>, fields: seq<Field>, i: nat, offset: nat, found: Fields): Fields
    requires i <= |fields| && offset <= |buf|
    decreases |fields| - i
  {
    if i == |fields| then found else
      var f := fields[i];
      if f.ty == TArray then
        if offset == |buf| then found else
          var full := f.size * buf[offset] + 1;
          if offset + full > |buf| then found
          else Lenient(buf, fields, i + 1, offset + full,
                       found[f.name := Entry(buf[offset..offset + full], full, f.ty)])
      else if f.size == 0 then
        if i == |fields| - 1 then found[f.name := Entry(buf[offset..], |buf| - offset, f.ty)]
        else Lenient(buf, fields, i + 1, offset, found)
      else if offset + f.size > |buf| then found
      else Lenient(buf, fields, i + 1, offset + f.size,
                   found[f.name := Entry(buf[offset..offset + f.size], f.size, f.ty)])
  }

  method ZcdBuilder(buf: seq<Byte>, fields: seq<Field>) returns (found: Fields)
    ensures found == Lenient(buf, fields, 0, 0, map[])
  {
    var offset: nat := 0;
    found := map[];
    ghost var whole := Lenient(buf, fields, 0, 0, map[]);
    var i := 0;
    while i < |fields|
      invariant 0 <= i <= |fields| && offset <= |buf|
      invariant Lenient(buf, fields, i, offset, found) == whole
    {
      var f := fields[i];
      if f.ty == TArray {
        if offset == |buf| {
          return;
        }
        var full: nat := f.size * buf[offset] + 1;
        if offset + full > |buf| {
          return;
        }
        found := found[f.name := Entry(buf[offset..offset + full], full, f.ty)];
        offset := offset + full;
      } else if f.size == 0 {
        if i == |fields| - 1 {
          found := found[f.name := Entry(buf[offset..], |buf| - offset, f.ty)];
          return;
        }
      } else {
        if offset + f.size > |buf| {
          return;
        }
        found := found[f.name := Entry(buf[offset..offset + f.size], f.size, f.ty)];
        offset := offset + f.size;
      }
      i := i + 1;
    }
  }

  /** On a fixed table the lenient walk keeps exactly the whole fields. */
  lemma {:induction false} LenientWhole(buf: seq<Byte>, fields: seq<Field>, i: nat)
    requires FixedTable(fields) && i <= |fields| && Offset(fields, i) <= |buf|
    ensures Lenient(buf, fields, i, Offset(fields, i), FieldMap(buf, fields, i))
         == FieldMap(buf, fields, WholeFrom(fields, |buf|, i))
    decreases |fields| - i
  {
    hide FieldMap, Offset, FixedTable;
    if i < |fields| {
      OffsetGrows(fields, i);
      if Offset(fields, i + 1) <= |buf| {
        FieldMapNext(buf, fields, i);
        LenientWhole(buf, fields, i + 1);
      }
    }
  }

  /** Whenever strict decoding succeeds the lenient builder yields the same fields. */
  lemma StrictAgreesWithLenient(buf: seq<Byte>, fields: seq<Field>, optional: Option<string>)
    requires FixedTable(fields) && Strict(buf, fields, optional).Ok?
    ensures Lenient(buf, fields, 0, 0, map[]) == Strict(buf, fields, optional).value
  {
    LenientWhole(buf, fields, 0);
  }

  // -------------------------------------------------------------- the tables

  lemma StatusTables()
    ensures FixedTable(STATUS_RESULT_V0_FIELDS) && FixedTable(STATUS_RESULT_V1_FIELDS)
    ensures Offset(STATUS_RESULT_V0_FIELDS, 8) == 88 && Offset(STATUS_RESULT_V0_FIELDS, 9) == 120
    ensures Offset(STATUS_RESULT_V1_FIELDS, 11) == 128
  {
    hide Offset, FixedTable;
    FixedV0();
    FixedV1();
    WholeV0();
    WholeV1();
  }

  lemma FixedV0()
    ensures FixedTable(STATUS_RESULT_V0_FIELDS)
  {
  }

  lemma FixedV1()
    ensures FixedTable(STATUS_RESULT_V1_FIELDS)
  {
    FixedV0();
    var first, all := STATUS_RESULT_V0_FIELDS, STATUS_RESULT_V1_FIELDS;
    NotInV0("finality_data_begin_block");
    NotInV0("finality_data_end_block");
    assert forall i | 0 <= i < 9 :: all[i] == first[i];
  }

  lemma NotInV0(name: string)
    requires name == "finality_data_begin_block" || name == "finality_data_end_block"
    ensures forall i | 0 <= i < |STATUS_RESULT_V0_FIELDS| :: STATUS_RESULT_V0_FIELDS[i].name != name
  {
  }

  lemma WholeV0()
    ensures Offset(STATUS_RESULT_V0_FIELDS, 8) == 88 && Offset(STATUS_RESULT_V0_FIELDS, 9) == 120
  {
    hide Offset;
    var fields := STATUS_RESULT_V0_FIELDS;
    assert fields[..9] == fields;
    CommonOffsets(fields);
  }

  lemma WholeV1()
    ensures var fields := STATUS_RESULT_V1_FIELDS;
            && fields[..9] == STATUS_RESULT_V0_FIELDS
            && Offset(fields, 9) == 120 && Offset(fields, 10) == 124 && Offset(fields, 11) == 128
  {
    hide Offset;
    var fields := STATUS_RESULT_V1_FIELDS;
    CommonOffsets(fields);
    OffsetNext(fields, 9);
    OffsetNext(fields, 10);
  }

  lemma OffsetNext(fields: seq<Field>, i: nat)
    requires i < |fields|
    ensures Offset(fields, 0) == 0 && Offset(fields, i + 1) == Offset(fields, i) + fields[i].size
  {
  }

  /** The nine fields of the first table, wherever they lead a table. */
  lemma CommonOffsets(fields: seq<Field>)
    requires |fields| >= 9 && fields[..9] == STATUS_RESULT_V0_FIELDS
    ensures Offset(fields, 1) == 4 && Offset(fields, 2) == 36 && Offset(fields, 3) == 40 && Offset(fields, 4) == 72
    ensures Offset(fields, 5) == 76 && Offset(fields, 6) == 80 && Offset(fields, 7) == 84 && Offset(fields, 8) == 88
    ensures Offset(fields, 9) == 120
  {
    hide Offset;
    LeadingSizes(fields);
    OffsetsFromSizes(fields);
  }

  lemma LeadingSizes(fields: seq<Field>)
    requires |fields| >= 9 && fields[..9] == STATUS_RESULT_V0_FIELDS
    ensures Sizes(fields)
  {
    assert forall i | 0 <= i < 9 :: fields[i] == fields[..9][i];
  }

  ghost predicate Sizes(fields: seq<Field>)
    requires |fields| >= 9
  {
    && fields[0].size == 4 && fields[1].size == 32 && fields[2].size == 4 && fields[3].size == 32
    && fields[4].size == 4 && fields[5].size == 4 && fields[6].size == 4 && fields[7].size == 4
    && fields[8].size == 32
  }

  lemma OffsetsFromSizes(fields: seq<Field>)
    requires |fields| >= 9 && Sizes(fields)
    ensures Offset(fields, 1) == 4 && Offset(fields, 2) == 36 && Offset(fields, 3) == 40 && Offset(fields, 4) == 72
    ensures Offset(fields, 5) == 76 && Offset(fields, 6) == 80 && Offset(fields, 7) == 84 && Offset(fields, 8) == 88
    ensures Offset(fields, 9) == 120
  {
    hide Offset;
    OffsetNext(fields, 0);
    OffsetNext(fields, 1);
    OffsetNext(fields, 2);
    OffsetNext(fields, 3);
    OffsetNext(fields, 4);
    OffsetNext(fields, 5);
    OffsetNext(fields, 6);
    OffsetNext(fields, 7);
    OffsetNext(fields, 8);
  }
}
