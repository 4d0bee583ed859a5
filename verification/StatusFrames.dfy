/** What a binary status frame reports, from the envelope to the fields of the table. */
module StatusFrames {
  import opened Options
  import opened Bytes
  import opened Zcd

  type Id = seq<Byte>

  datatype Pos = Pos(num: nat, id: Id)

  // ------------------------------------------------------ reading a frame

  /** What a status result reports. */
  datatype Report = Report(
    variant: Byte,
    head: Pos,
    lib: Pos,
    trace: (nat, nat),
    chainState: (nat, nat),
    finality: Option<(nat, nat)>,
    chainId: Option<Id>)

  function LE32(b: seq<Byte>): nat
    requires |b| == 4
  {
    b[0] as int + 256 * b[1] as int + 65536 * b[2] as int + 16777216 * b[3] as int
  }

  function RequireU32(fields: Fields, name: string): Result<nat, ZcdError> {
    if name !in fields || fields[name].ty != TU32 then Err(Truncated(name, 4, 0))
    else if |fields[name].slice| != 4 then Err(Malformed("u32", 4, |fields[name].slice|))
    else Ok(LE32(fields[name].slice))
  }

  function RequireId(fields: Fields, name: string): Result<Id, ZcdError> {
    if name !in fields || fields[name].ty != TChecksum256 then Err(Truncated(name, 32, 0))
    else if |fields[name].slice| != 32 then Err(Malformed("checksum256", 32, |fields[name].slice|))
    else Ok(fields[name].slice)
  }

  /** The report in a decoded status, field by field. */
  function ReadReport(variant: Byte, fields: Fields): Result<Report, ZcdError> {
    var headNum :- RequireU32(fields, "head_block_num");
    var headId :- RequireId(fields, "head_block_id");
    var libNum :- RequireU32(fields, "last_irreversible_block_num");
    var libId :- RequireId(fields, "last_irreversible_block_id");
    var traceBegin :- RequireU32(fields, "trace_begin_block");
    var traceEnd :- RequireU32(fields, "trace_end_block");
    var chainBegin :- RequireU32(fields, "chain_state_begin_block");
    var chainEnd :- RequireU32(fields, "chain_state_end_block");
    var finality :- if variant == 3 then ReadFinality(fields) else Ok(None);
    var chainId := if "chain_id" in fields then Some(fields["chain_id"].slice) else None;
    Ok(Report(variant, Pos(headNum, headId), Pos(libNum, libId), (traceBegin, traceEnd), (chainBegin, chainEnd),
              finality, chainId))
  }

  function ReadFinality(fields: Fields): Result<Option<(nat, nat)>, ZcdError> {
    var begin :- RequireU32(fields, "finality_data_begin_block");
    var end :- RequireU32(fields, "finality_data_end_block");
    Ok(Some((begin, end)))
  }

  /** The fields of a status body of the given result variant. */
  function StatusFields(variant: Byte, body: seq<Byte>): Result<Fields, ZcdError> {
    if variant == 0 then Strict(body, STATUS_RESULT_V0_FIELDS, Some("chain_id"))
    else Strict(body, STATUS_RESULT_V1_FIELDS, None)
  }

  /** The report a whole frame makes; `None` for any other result. */
  function ReadFrame(frame: seq<Byte>): Result<Option<Report>, ZcdError> {
    if frame == [] || (frame[0] != 0 && frame[0] != 3) then Ok(None) else
      var fields :- StatusFields(frame[0], frame[1..]);
      var report :- ReadReport(frame[0], fields);
      Ok(Some(report))
  }

  /** The envelope: one variant byte, and the rest as data. */
  lemma Envelope(frame: seq<Byte>)
    ensures var m := Lenient(frame, RESULT_V0_FIELDS, 0, 0, map[]);
            if frame == [] then m == map[]
            else m == map["variant" := Entry([frame[0]], 1, TU8), "data" := Entry(frame[1..], |frame| - 1, TBytes)]
  {
    if frame != [] {
      assert frame[0..1] == [frame[0]];
      var one := map["variant" := Entry([frame[0]], 1, TU8)];
      assert Lenient(frame, RESULT_V0_FIELDS, 1, 1, one) == one["data" := Entry(frame[1..], |frame| - 1, TBytes)];
    }
  }

  /** A status body in place: the offsets of the table, in plain numbers. */
  function BodyReport(variant: Byte, body: seq<Byte>): Report
    requires |body| >= if variant == 3 then 128 else 88
  {
    Report(variant,
           Pos(LE32(body[0..4]), body[4..36]),
           Pos(LE32(body[36..40]), body[40..72]),
           (LE32(body[72..76]), LE32(body[76..80])),
           (LE32(body[80..84]), LE32(body[84..88])),
           if variant == 3 then Some((LE32(body[120..124]), LE32(body[124..128]))) else None,
           if |body| >= 120 then Some(body[88..120]) else None)
  }

  /** Field `i` of a strictly decoded body. */
  lemma FieldAt(body: seq<Byte>, fields: seq<Field>, n: nat, i: nat, from: nat, to: nat)
    requires FixedTable(fields) && i < n <= |fields| && Offset(fields, n) <= |body|
    requires Offset(fields, i) == from && Offset(fields, i + 1) == to
    ensures from <= to <= |body| && fields[i].name in FieldMap(body, fields, n)
    ensures FieldMap(body, fields, n)[fields[i].name] == Entry(body[from..to], fields[i].size, fields[i].ty)
  {
    FieldMapAt(body, fields, n, i);
  }

  /** The eight leading fields, common to both versions. */
  lemma CommonFields(body: seq<Byte>, fields: seq<Field>, n: nat)
    requires FixedTable(fields) && 8 <= n <= |fields| && Offset(fields, n) <= |body|
    requires |fields| >= 9 && fields[..9] == STATUS_RESULT_V0_FIELDS
    ensures |body| >= 88
    ensures var m := FieldMap(body, fields, n);
            && RequireU32(m, "head_block_num") == Ok(LE32(body[0..4]))
            && RequireId(m, "head_block_id") == Ok(body[4..36])
            && RequireU32(m, "last_irreversible_block_num") == Ok(LE32(body[36..40]))
            && RequireId(m, "last_irreversible_block_id") == Ok(body[40..72])
            && RequireU32(m, "trace_begin_block") == Ok(LE32(body[72..76]))
            && RequireU32(m, "trace_end_block") == Ok(LE32(body[76..80]))
            && RequireU32(m, "chain_state_begin_block") == Ok(LE32(body[80..84]))
            && RequireU32(m, "chain_state_end_block") == Ok(LE32(body[84..88]))
  {
    hide FieldMap, Offset, FixedTable, LE32;
    CommonOffsets(fields);
    OffsetMonotone(fields, 8, n);
    assert forall i | 0 <= i < 9 :: fields[i] == fields[..9][i];
    OffsetZero(fields);
    FieldAt(body, fields, n, 0, 0, 4);
    FieldAt(body, fields, n, 1, 4, 36);
    FieldAt(body, fields, n, 2, 36, 40);
    FieldAt(body, fields, n, 3, 40, 72);
    FieldAt(body, fields, n, 4, 72, 76);
    FieldAt(body, fields, n, 5, 76, 80);
    FieldAt(body, fields, n, 6, 80, 84);
    FieldAt(body, fields, n, 7, 84, 88);
  }

  lemma OffsetZero(fields: seq<Field>)
    ensures Offset(fields, 0) == 0
  {
  }

  /** A status body that decodes reports exactly its bytes at the table's offsets; one that
      does not is refused with the decoder's error. */
  lemma ReportV0(body: seq<Byte>)
    ensures StatusFields(0, body).Ok? <==> |body| >= 120 || |body| == 88
    ensures StatusFields(0, body).Ok? ==> ReadReport(0, StatusFields(0, body).value) == Ok(BodyReport(0, body))
  {
    var fields := STATUS_RESULT_V0_FIELDS;
    StatusTables();
    StrictExact(body, fields, Some("chain_id"), 0);
    if StatusFields(0, body).Ok? {
      assert fields[..9] == fields;
      CommonOffsets(fields);
      var n := if |body| >= 120 then 9 else 8;
      WholeIs(fields, |body|, n);
      CommonFields(body, fields, n);
      if n == 9 {
        FieldAt(body, fields, 9, 8, 88, 120);
      } else if "chain_id" in FieldMap(body, fields, 8) {
        FieldMapOnly(body, fields, 8, "chain_id");
      }
    }
  }

  lemma ReportV1(body: seq<Byte>)
    ensures StatusFields(3, body).Ok? <==> |body| >= 128
    ensures StatusFields(3, body).Ok? ==> ReadReport(3, StatusFields(3, body).value) == Ok(BodyReport(3, body))
  {
    hide Offset, FieldMap, FixedTable, Whole, RequireU32, RequireId;
    var fields := STATUS_RESULT_V1_FIELDS;
    StatusTables();
    StrictExact(body, fields, None, 0);
    WholeV1();
    if StatusFields(3, body).Ok? {
      WholeIs(fields, |body|, 11);
      CommonFields(body, fields, 11);
      V1Fields(body);
    }
  }

  /** The chain id and the finality range of a v1 body. */
  lemma V1Fields(body: seq<Byte>)
    requires |body| >= 128 && Offset(STATUS_RESULT_V1_FIELDS, 11) <= |body|
    ensures var m := FieldMap(body, STATUS_RESULT_V1_FIELDS, 11);
            && "chain_id" in m && m["chain_id"].slice == body[88..120]
            && ReadFinality(m) == Ok(Some((LE32(body[120..124]), LE32(body[124..128]))))
  {
    hide Offset, FieldMap, FixedTable, LE32;
    var fields := STATUS_RESULT_V1_FIELDS;
    StatusTables();
    WholeV1();
    CommonOffsets(fields);
    FieldAt(body, fields, 11, 8, 88, 120);
    FieldAt(body, fields, 11, 9, 120, 124);
    FieldAt(body, fields, 11, 10, 124, 128);
  }

  /** A status frame that is accepted reports its own bytes. */
  lemma FrameReport(frame: seq<Byte>)
    requires |frame| >= 1 && (frame[0] == 0 || frame[0] == 3) && ReadFrame(frame).Ok?
    ensures |frame| >= if frame[0] == 3 then 129 else 89
    ensures ReadFrame(frame) == Ok(Some(BodyReport(frame[0], frame[1..])))
  {
    hide StatusFields, ReadReport, BodyReport;
    if frame[0] == 0 { ReportV0(frame[1..]); } else { ReportV1(frame[1..]); }
  }
}
