/**
 * The store side of the recipe handler (src/ms_sql.py): downloading the step
 * data of every unit of a recipe structure into the store, uploading stored
 * step data back to the units, and the two consistency checks.
 *
 * Store queries and device sessions are inputs: the rows a query returns, and
 * functions that stand for what get_servo_steps, get_opcua_value,
 * cursor.execute and connect_opcua return for their arguments.
 */
module MsSql {
  import opened Wrappers
  import opened PyStr
  import opened PyValue
  import opened PyDict
  import opened OpcuaClient

  // ---------------------------------------------------------------------
  // The structure map (from_units_to_sql_stepdata, lines 37-42)
  // ---------------------------------------------------------------------

  /** A row of viewRecipeStructuresMap: Unit_Id, UnitName, RecipeStructure_Id, UnitTagName, URL. */
  datatype MapRow = MapRow(unitId: int, unitName: string, structureId: int, origin: string, url: string)

  /** One participating unit: its id, its server URL and the node its data comes from. */
  datatype Participant = Participant(unitId: int, url: string, origin: string)

  function ParticipantOf(row: MapRow): Participant {
    Participant(row.unitId, row.url, row.origin)
  }

  /** The units of the map rows whose structure id is the requested one, in map order. */
  function Participants(rows: seq<MapRow>, structureId: int): seq<Participant> {
    if rows == [] then []
    else
      var ps := Participants(rows[..|rows| - 1], structureId);
      var row := rows[|rows| - 1];
      if row.structureId == structureId then ps + [ParticipantOf(row)] else ps
  }

  /** The three parallel lists the loop fills, read back as triples. */
  function Zip3(unitIds: seq<int>, urls: seq<string>, origins: seq<string>): seq<Participant>
    requires |unitIds| == |urls| == |origins|
  {
    seq(|unitIds|, k requires 0 <= k < |unitIds| => Participant(unitIds[k], urls[k], origins[k]))
  }

  /** The loop over the structure map that fills unit_ids_list, ip_address_list and data_origin_list. */
  method ResolveUnits(rows: seq<MapRow>, structureId: int) returns (unitIds: seq<int>, urls: seq<string>, origins: seq<string>)
    ensures |unitIds| == |urls| == |origins|
    ensures Zip3(unitIds, urls, origins) == Participants(rows, structureId)
  {
    unitIds, urls, origins := [], [], [];
    var i := 0;
    while i < |rows|
      invariant 0 <= i <= |rows|
      invariant |unitIds| == |urls| == |origins|
      invariant Zip3(unitIds, urls, origins) == Participants(rows[..i], structureId)
    {
      var row := rows[i];
      assert rows[..i + 1][..i] == rows[..i];
      if row.structureId == structureId {
        unitIds := unitIds + [row.unitId];
        urls := urls + [row.url];
        origins := origins + [row.origin];
      }
      i := i + 1;
    }
    assert rows[..i] == rows;
  }

  /** Resolution distributes over the map rows: it keeps their order. */
  lemma {:induction false} ParticipantsAppend(a: seq<MapRow>, b: seq<MapRow>, structureId: int)
    ensures Participants(a + b, structureId) == Participants(a, structureId) + Participants(b, structureId)
    decreases |b|
  {
    if b == [] {
      assert a + b == a;
    } else {
      ParticipantsAppend(a, b[..|b| - 1], structureId);
      assert (a + b)[..|a + b| - 1] == a + b[..|b| - 1];
    }
  }

  /** A unit participates exactly when some map row with the requested structure id names it. */
  lemma {:induction false} ParticipantsMember(rows: seq<MapRow>, structureId: int, p: Participant)
    ensures p in Participants(rows, structureId) <==>
      exists k :: 0 <= k < |rows| && rows[k].structureId == structureId && ParticipantOf(rows[k]) == p
  {
    if rows != [] {
      var init := rows[..|rows| - 1];
      ParticipantsMember(init, structureId, p);
      if exists k :: 0 <= k < |init| && init[k].structureId == structureId && ParticipantOf(init[k]) == p {
        var k :| 0 <= k < |init| && init[k].structureId == structureId && ParticipantOf(init[k]) == p;
        assert rows[k] == init[k];
      }
      if exists k :: 0 <= k < |rows| && rows[k].structureId == structureId && ParticipantOf(rows[k]) == p {
        var k :| 0 <= k < |rows| && rows[k].structureId == structureId && ParticipantOf(rows[k]) == p;
        if k < |init| {
          assert init[k] == rows[k];
        }
      }
    }
  }

  // ---------------------------------------------------------------------
  // The namespace prefix: re.sub(r'^.*?"', '"', s) and f"ns={i};s={t}"
  // ---------------------------------------------------------------------

  /**
   * re.sub(r'^.*?"', '"', s): everything before the first '"' is dropped. The
   * pattern is anchored and '.' does not match a newline, so s is unchanged
   * when it has no '"' or when a newline comes before the first one.
   */
  function StripNamespace(s: string): (r: string)
    ensures |r| <= |s| && r == s[|s| - |r|..]
    ensures r != s ==> |r| > 0 && r[0] == '"' && '"' !in s[..|s| - |r|] && '\n' !in s[..|s| - |r|]
    ensures r == s <==> '"' !in s || s[0] == '"' || '\n' in s[..IndexOf(s, '"')]
  {
    var i := IndexOf(s, '"');
    if i == |s| || '\n' in s[..i] then s else s[i..]
  }

  /** f"ns={namespace_index};s={tag_name}": the tag re-qualified with a namespace index. */
  function Requalify(index: nat, tag: string): string {
    "ns=" + NatToDigits(index) + ";s=" + tag
  }

  /** Stripping twice strips no more than stripping once. */
  lemma StripNamespaceIdempotent(s: string)
    ensures StripNamespace(StripNamespace(s)) == StripNamespace(s)
  {
    var r := StripNamespace(s);
    var i := IndexOf(s, '"');
    if i < |s| && '\n' !in s[..i] {
      assert r[0] == '"';
      assert IndexOf(r, '"') == 0;
      assert r[..0] == [];
      assert r[0..] == r;
    }
  }

  /** Re-qualifying a quoted tag and stripping it again gives back the tag. */
  lemma StripRequalify(index: nat, tag: string)
    requires |tag| > 0 && tag[0] == '"'
    ensures StripNamespace(Requalify(index, tag)) == tag
  {
    var digits := NatToDigits(index);
    var head := "ns=" + digits + ";s=";
    var s := Requalify(index, tag);
    assert forall k :: 0 <= k < |digits| ==> IsDigit(digits[k]);
    assert '"' !in head;
    assert '\n' !in head;
    assert s == head + ['"'] + tag[1..];
    IndexOfAfterHead(head, '"', tag[1..]);
    assert s[..|head|] == head;
    assert s[|head|..] == tag;
  }

  // ---------------------------------------------------------------------
  // check_recipe_data
  // ---------------------------------------------------------------------

  /** `None in row` for none of the rows, scanning them in order. */
  function NoneFree(rows: seq<seq<Value>>): (r: bool)
    ensures r <==> forall k :: 0 <= k < |rows| ==> VNone !in rows[k]
  {
    if rows == [] then true
    else if VNone in rows[0] then false
    else NoneFree(rows[1..])
  }

  /**
   * check_recipe_data, given what the query returned (Raised when the query
   * raised): False for no rows or a row holding None, True otherwise.
   */
  function CheckRecipeData(rows: Result<seq<seq<Value>>>): (r: bool)
    ensures r <==> rows.Ok? && |rows.value| > 0 && forall k :: 0 <= k < |rows.value| ==> VNone !in rows.value[k]
  {
    match rows
    case Raised(_) => false
    case Ok(rs) => if rs == [] then false else NoneFree(rs)
  }

  // ---------------------------------------------------------------------
  // from_units_to_sql_stepdata
  // ---------------------------------------------------------------------

  /** The node whose children are the step array; a unit with this origin takes the array path. */
  const StepsOrigin := "ns=3;s=\"StepData\".\"RunningSteps\".\"Steps\""

  /** One call of the add_value procedure: TagName, TagValue, TagDataType, RecipeID, UnitID. */
  datatype StoreRow = StoreRow(tagName: string, tagValue: Value, tagType: Option<TypeTag>, recipeId: string, unitId: int)

  /**
   * What the download reads and writes: get_servo_steps(url, StepsOrigin),
   * get_opcua_value(url, origin), and whether cursor.execute of an add_value
   * call succeeds.
   */
  datatype DownloadIo = DownloadIo(
    servoSteps: string -> Option<seq<Record>>,
    opcuaValue: (string, string) -> Reading,
    execOk: StoreRow -> bool)

  /** The name a unit's step count is recorded under on the array path. */
  function UnitName(id: int): (name: string)
    ensures id == 1 <==> name == "SMC1"
    ensures id == 2 <==> name == "SMC2"
    ensures id == 3 <==> name == "Master"
  {
    if id == 1 then "SMC1"
    else if id == 2 then "SMC2"
    else if id == 3 then "Master"
    else "Unknown unit " + IntToString(id)
  }

  /** The add_value call for one field of a step: the node's Identifier, its value and its type's name. */
  function FieldRow(f: Field, recipeId: string, unitId: int): StoreRow {
    StoreRow(f.node.identifier, f.value, Some(TypeText(TypeName(f.dtype))), recipeId, unitId)
  }

  function RecordRows(rec: Record, recipeId: string, unitId: int): (rows: seq<StoreRow>)
    ensures |rows| == |rec|
  {
    seq(|rec|, k requires 0 <= k < |rec| => FieldRow(rec[k], recipeId, unitId))
  }

  /** The add_value calls for a unit's steps: one per (step, field), steps then fields. */
  function StepRows(steps: seq<Record>, recipeId: string, unitId: int): seq<StoreRow> {
    if steps == [] then []
    else StepRows(steps[..|steps| - 1], recipeId, unitId) + RecordRows(steps[|steps| - 1], recipeId, unitId)
  }

  /** The rows whose add_value call succeeded. */
  function Executed(rows: seq<StoreRow>, execOk: StoreRow -> bool): seq<StoreRow> {
    if rows == [] then []
    else Executed(rows[..|rows| - 1], execOk) + (if execOk(rows[|rows| - 1]) then [rows[|rows| - 1]] else [])
  }

  predicate AllExecuted(rows: seq<StoreRow>, execOk: StoreRow -> bool) {
    forall k :: 0 <= k < |rows| ==> execOk(rows[k])
  }

  /**
   * The locals of from_units_to_sql_stepdata between two units: the success
   * flag, `unitname` (None while unbound), whether `recipe_id` is bound, the
   * step counts per unit name, the add_value calls that succeeded, and
   * whether an exception escaped.
   */
  datatype DownloadState = DownloadState(
    flag: bool,
    unitName: Option<string>,
    recipeBound: bool,
    lengths: Dict<string, int>,
    stored: seq<StoreRow>,
    raised: bool)

  const DownloadStart := DownloadState(true, None, false, [], [], false)

  /**
   * One pass of the loop over the participating units. On the array path
   * without steps the code matches on `unit_id`, the variable left over from
   * the loop over the structure map, not on the unit at hand: staleId is that
   * value. An id other than 1, 2 and 3 there needs `unitname` from an earlier
   * unit, and raises when it is unbound. On the scalar path the flag is
   * assigned, not combined, and the add_value call needs `recipe_id`, which
   * only the array path binds (a NameError there is caught and clears the flag).
   */
  function DownloadUnit(st: DownloadState, p: Participant, staleId: int, recipeId: string, io: DownloadIo): DownloadState {
    if p.origin == StepsOrigin then
      var steps := io.servoSteps(p.url).GetOr([]);
      if steps != [] then
        var name := UnitName(p.unitId);
        var rows := StepRows(steps, recipeId, p.unitId);
        DownloadState(
          st.flag && AllExecuted(rows, io.execOk),
          Some(name),
          st.recipeBound || rows != [],
          Put(st.lengths, name, |steps|),
          st.stored + Executed(rows, io.execOk),
          false)
      else if staleId == 1 then st.(unitName := Some("SMC1"), flag := false)
      else if staleId == 2 then st.(unitName := Some("SMC2"), flag := false)
      else if staleId == 3 then st.(unitName := Some("Master"))
      else if st.unitName.None? then st.(raised := true)
      else st.(flag := false)
    else
      var reading := io.opcuaValue(p.url, p.origin);
      var row := StoreRow(StripNamespace(p.origin), reading.value, reading.dtype, recipeId, p.unitId);
      if !st.recipeBound then st.(flag := false)
      else st.(flag := reading.ok && io.execOk(row), stored := st.stored + if io.execOk(row) then [row] else [])
  }

  /** The loop over the participating units; it stops at an exception. */
  function DownloadUnits(ps: seq<Participant>, staleId: int, recipeId: string, io: DownloadIo): DownloadState {
    if ps == [] then DownloadStart
    else
      var st := DownloadUnits(ps[..|ps| - 1], staleId, recipeId, io);
      if st.raised then st else DownloadUnit(st, ps[|ps| - 1], staleId, recipeId, io)
  }

  /** The value of `unit_id` after the loop over the structure map: the last row's unit id. */
  function StaleUnitId(mapRows: seq<MapRow>): int {
    if mapRows == [] then 0 else mapRows[|mapRows| - 1].unitId
  }

  /**
   * The effect of from_units_to_sql_stepdata: what it returns (Raised when an
   * exception escapes), the add_value calls the commit keeps, and the step
   * counts per unit name.
   */
  datatype DownloadOutcome = DownloadOutcome(ret: Result<Option<bool>>, committed: seq<StoreRow>, lengths: Dict<string, int>)

  /**
   * from_units_to_sql_stepdata: None when the store is unreachable or some
   * unit failed, otherwise check_recipe_data on the rows checkRows the store
   * then holds for the recipe.
   */
  function Download(mapRows: seq<MapRow>, structureId: int, recipeId: string, dbConnected: bool,
                    io: DownloadIo, checkRows: Result<seq<seq<Value>>>): DownloadOutcome
  {
    if !dbConnected then DownloadOutcome(Ok(None), [], [])
    else
      var st := DownloadUnits(Participants(mapRows, structureId), StaleUnitId(mapRows), recipeId, io);
      if st.raised then DownloadOutcome(Raised("UnboundLocalError: unitname"), [], st.lengths)
      else if st.flag then DownloadOutcome(Ok(Some(CheckRecipeData(checkRows))), st.stored, st.lengths)
      else DownloadOutcome(Ok(None), st.stored, st.lengths)
  }

  lemma ExecutedAppend(rows: seq<StoreRow>, row: StoreRow, execOk: StoreRow -> bool)
    ensures Executed(rows + [row], execOk) == Executed(rows, execOk) + if execOk(row) then [row] else []
  {
    assert (rows + [row])[..|rows|] == rows;
  }

  lemma {:induction false} ExecutedConcat(a: seq<StoreRow>, b: seq<StoreRow>, execOk: StoreRow -> bool)
    ensures Executed(a + b, execOk) == Executed(a, execOk) + Executed(b, execOk)
    decreases |b|
  {
    if b == [] {
      assert a + b == a;
    } else {
      ExecutedConcat(a, b[..|b| - 1], execOk);
      assert (a + b)[..|a + b| - 1] == a + b[..|b| - 1];
    }
  }

  /** Once an exception has escaped, the remaining units change nothing. */
  lemma {:induction false} DownloadRaisedSticks(ps: seq<Participant>, k: nat, staleId: int, recipeId: string, io: DownloadIo)
    requires k <= |ps| && DownloadUnits(ps[..k], staleId, recipeId, io).raised
    ensures DownloadUnits(ps, staleId, recipeId, io) == DownloadUnits(ps[..k], staleId, recipeId, io)
    decreases |ps|
  {
    if k < |ps| {
      var init := ps[..|ps| - 1];
      assert init[..k] == ps[..k];
      DownloadRaisedSticks(init, k, staleId, recipeId, io);
    } else {
      assert ps[..k] == ps;
    }
  }

  lemma AllExecutedConcat(a: seq<StoreRow>, b: seq<StoreRow>, execOk: StoreRow -> bool)
    ensures AllExecuted(a + b, execOk) == (AllExecuted(a, execOk) && AllExecuted(b, execOk))
  {
    if AllExecuted(a, execOk) && AllExecuted(b, execOk) {
      forall k | 0 <= k < |a + b| ensures execOk((a + b)[k]) {
        if k >= |a| {
          assert (a + b)[k] == b[k - |a|];
        }
      }
    }
    if AllExecuted(a + b, execOk) {
      forall k | 0 <= k < |a| ensures execOk(a[k]) {
        assert (a + b)[k] == a[k];
      }
      forall k | 0 <= k < |b| ensures execOk(b[k]) {
        assert (a + b)[|a| + k] == b[k];
      }
    }
  }

  /** The inner loop over the fields of one step: one add_value call per field. */
  method ExecuteFields(rec: Record, recipeId: string, unitId: int, execOk: StoreRow -> bool)
    returns (ok: bool, done: seq<StoreRow>)
    ensures ok == AllExecuted(RecordRows(rec, recipeId, unitId), execOk)
    ensures done == Executed(RecordRows(rec, recipeId, unitId), execOk)
  {
    ok, done := true, [];
    var f := 0;
    while f < |rec|
      invariant 0 <= f <= |rec|
      invariant ok == AllExecuted(RecordRows(rec[..f], recipeId, unitId), execOk)
      invariant done == Executed(RecordRows(rec[..f], recipeId, unitId), execOk)
    {
      var row := FieldRow(rec[f], recipeId, unitId);
      ghost var rows := RecordRows(rec[..f], recipeId, unitId);
      assert RecordRows(rec[..f + 1], recipeId, unitId) == rows + [row];
      ExecutedAppend(rows, row, execOk);
      AllExecutedConcat(rows, [row], execOk);
      if execOk(row) {
        done := done + [row];
      } else {
        ok := false;
      }
      f := f + 1;
    }
    assert rec[..f] == rec;
  }

  /**
   * The loops over a unit's steps and their fields on the array path: one
   * add_value call per field, a failed call clears ok and the loop goes on;
   * bound tells whether `recipe_id = selected_id` ran at least once.
   */
  method ExecuteSteps(recs: seq<Record>, recipeId: string, unitId: int, execOk: StoreRow -> bool)
    returns (ok: bool, done: seq<StoreRow>, bound: bool)
    ensures ok == AllExecuted(StepRows(recs, recipeId, unitId), execOk)
    ensures done == Executed(StepRows(recs, recipeId, unitId), execOk)
    ensures bound == (StepRows(recs, recipeId, unitId) != [])
  {
    ok, done, bound := true, [], false;
    var s := 0;
    while s < |recs|
      invariant 0 <= s <= |recs|
      invariant ok == AllExecuted(StepRows(recs[..s], recipeId, unitId), execOk)
      invariant done == Executed(StepRows(recs[..s], recipeId, unitId), execOk)
      invariant bound == (StepRows(recs[..s], recipeId, unitId) != [])
    {
      var rec := recs[s];
      ghost var rows := StepRows(recs[..s], recipeId, unitId);
      assert recs[..s + 1][..s] == recs[..s];
      assert StepRows(recs[..s + 1], recipeId, unitId) == rows + RecordRows(rec, recipeId, unitId);
      var recOk, recDone := ExecuteFields(rec, recipeId, unitId, execOk);
      ExecutedConcat(rows, RecordRows(rec, recipeId, unitId), execOk);
      AllExecutedConcat(rows, RecordRows(rec, recipeId, unitId), execOk);
      ok := ok && recOk;
      done := done + recDone;
      bound := bound || |rec| > 0;
      s := s + 1;
    }
    assert recs[..s] == recs;
  }

  /** The body of the loop over the participating units, for one unit. */
  method DownloadUnitBody(st: DownloadState, p: Participant, staleId: int, recipeId: string, io: DownloadIo)
    returns (next: DownloadState)
    requires !st.raised
    ensures next == DownloadUnit(st, p, staleId, recipeId, io)
  {
    next := st;
    if p.origin == StepsOrigin {
      var steps := io.servoSteps(p.url);
      if steps.Some? && steps.value != [] {
        var recs := steps.value;
        var name := UnitName(p.unitId);
        var ok, done, bound := ExecuteSteps(recs, recipeId, p.unitId, io.execOk);
        next := DownloadState(st.flag && ok, Some(name), st.recipeBound || bound,
                              Put(st.lengths, name, |recs|), st.stored + done, false);
      } else if staleId == 1 {
        next := st.(unitName := Some("SMC1"), flag := false);
      } else if staleId == 2 {
        next := st.(unitName := Some("SMC2"), flag := false);
      } else if staleId == 3 {
        next := st.(unitName := Some("Master"));
      } else if st.unitName.None? {
        next := st.(raised := true);
      } else {
        next := st.(flag := false);
      }
    } else {
      var reading := io.opcuaValue(p.url, p.origin);
      var flag := reading.ok;
      var tag := StripNamespace(p.origin);
      var stored := st.stored;
      if st.recipeBound {
        var row := StoreRow(tag, reading.value, reading.dtype, recipeId, p.unitId);
        if io.execOk(row) {
          stored := stored + [row];
        } else {
          flag := false;
        }
      } else {
        flag := false;
      }
      next := st.(flag := flag, stored := stored);
    }
  }

  /** from_units_to_sql_stepdata(selected_id, texts, recipe_structure_id). */
  method FromUnitsToSqlStepdata(mapRows: seq<MapRow>, structureId: int, recipeId: string, dbConnected: bool,
                                io: DownloadIo, checkRows: Result<seq<seq<Value>>>) returns (o: DownloadOutcome)
    ensures o == Download(mapRows, structureId, recipeId, dbConnected, io, checkRows)
  {
    var unitIds, urls, origins := ResolveUnits(mapRows, structureId);
    ghost var ps := Participants(mapRows, structureId);
    if !dbConnected {
      return DownloadOutcome(Ok(None), [], []);
    }
    var staleId := if mapRows == [] then 0 else mapRows[|mapRows| - 1].unitId;
    var flag, unitName, recipeBound := true, None, false;
    var lengths: Dict<string, int> := [];
    var stored: seq<StoreRow> := [];
    var i := 0;
    while i < |unitIds|
      invariant 0 <= i <= |unitIds| && |ps| == |unitIds|
      invariant DownloadUnits(ps[..i], staleId, recipeId, io) == DownloadState(flag, unitName, recipeBound, lengths, stored, false)
    {
      var url, unitId, origin := urls[i], unitIds[i], origins[i];
      assert ps[i] == Zip3(unitIds, urls, origins)[i];
      assert ps[..i + 1][..i] == ps[..i];
      var next := DownloadUnitBody(DownloadState(flag, unitName, recipeBound, lengths, stored, false),
                                   Participant(unitId, url, origin), staleId, recipeId, io);
      if next.raised {
        DownloadRaisedSticks(ps, i + 1, staleId, recipeId, io);
        return DownloadOutcome(Raised("UnboundLocalError: unitname"), [], next.lengths);
      }
      flag, unitName, recipeBound, lengths, stored := next.flag, next.unitName, next.recipeBound, next.lengths, next.stored;
      i := i + 1;
    }
    assert ps[..i] == ps;
    if flag {
      return DownloadOutcome(Ok(Some(CheckRecipeData(checkRows))), stored, lengths);
    }
    return DownloadOutcome(Ok(None), stored, lengths);
  }

  /** The rows a unit's steps give, step by step: the block of a step sits between those of its neighbours. */
  lemma {:induction false} StepRowsAppend(a: seq<Record>, b: seq<Record>, recipeId: string, unitId: int)
    ensures StepRows(a + b, recipeId, unitId) == StepRows(a, recipeId, unitId) + StepRows(b, recipeId, unitId)
    decreases |b|
  {
    if b == [] {
      assert a + b == a;
    } else {
      var init := b[..|b| - 1];
      var last := RecordRows(b[|b| - 1], recipeId, unitId);
      StepRowsAppend(a, init, recipeId, unitId);
      var ab := a + b;
      assert ab[..|ab| - 1] == a + init && ab[|ab| - 1] == b[|b| - 1];
      assert StepRows(ab, recipeId, unitId) == StepRows(a + init, recipeId, unitId) + last;
      assert StepRows(b, recipeId, unitId) == StepRows(init, recipeId, unitId) + last;
    }
  }

  /** The number of fields over all steps. */
  function FieldCount(steps: seq<Record>): nat {
    if steps == [] then 0 else |steps[0]| + FieldCount(steps[1..])
  }

  /**
   * The array path makes exactly one add_value call per (step, field): the
   * calls for step s come after those of the steps before it and are its
   * fields in order.
   */
  lemma {:induction false} StepRowsLayout(steps: seq<Record>, s: nat, recipeId: string, unitId: int)
    requires s < |steps|
    ensures StepRows(steps, recipeId, unitId) ==
      StepRows(steps[..s], recipeId, unitId) + RecordRows(steps[s], recipeId, unitId) + StepRows(steps[s + 1..], recipeId, unitId)
    ensures |StepRows(steps, recipeId, unitId)| == FieldCount(steps)
  {
    assert steps == steps[..s] + [steps[s]] + steps[s + 1..];
    StepRowsAppend(steps[..s] + [steps[s]], steps[s + 1..], recipeId, unitId);
    StepRowsAppend(steps[..s], [steps[s]], recipeId, unitId);
    assert [steps[s]][..0] == [];
    StepRowsCount(steps, recipeId, unitId);
  }

  lemma {:induction false} StepRowsCount(steps: seq<Record>, recipeId: string, unitId: int)
    ensures |StepRows(steps, recipeId, unitId)| == FieldCount(steps)
    decreases |steps|
  {
    if steps != [] {
      StepRowsCount(steps[1..], recipeId, unitId);
      assert steps == [steps[0]] + steps[1..];
      StepRowsAppend([steps[0]], steps[1..], recipeId, unitId);
      assert [steps[0]][..0] == [];
    }
  }

  /**
   * On the array path with steps, the step count is recorded under the unit's
   * name, every field's add_value call is made, and a failed call clears the
   * flag without stopping the others.
   */
  lemma DownloadArrayPath(st: DownloadState, p: Participant, staleId: int, recipeId: string, io: DownloadIo)
    requires p.origin == StepsOrigin && io.servoSteps(p.url).Some? && io.servoSteps(p.url).value != []
    ensures var steps := io.servoSteps(p.url).value;
            var rows := StepRows(steps, recipeId, p.unitId);
            var next := DownloadUnit(st, p, staleId, recipeId, io);
            && Get(next.lengths, UnitName(p.unitId)) == Some(|steps|)
            && |rows| == FieldCount(steps)
            && next.stored == st.stored + Executed(rows, io.execOk)
            && (next.flag <==> st.flag && AllExecuted(rows, io.execOk))
  {
    var steps := io.servoSteps(p.url).value;
    var name := UnitName(p.unitId);
    GetPut(st.lengths, name, |steps|, name);
    StepRowsCount(steps, recipeId, p.unitId);
  }

  /**
   * On the array path without steps, the outcome does not depend on the unit
   * at hand: the match is on the id left over from the structure map.
   */
  lemma DownloadNoStepsIgnoresUnit(st: DownloadState, p: Participant, id: int, staleId: int, recipeId: string, io: DownloadIo)
    requires !st.raised
    requires p.origin == StepsOrigin && io.servoSteps(p.url).GetOr([]) == []
    ensures DownloadUnit(st, p, staleId, recipeId, io) == DownloadUnit(st, p.(unitId := id), staleId, recipeId, io)
    ensures staleId == 3 ==> DownloadUnit(st, p, staleId, recipeId, io).flag == st.flag
    ensures staleId != 3 && !DownloadUnit(st, p, staleId, recipeId, io).raised ==> !DownloadUnit(st, p, staleId, recipeId, io).flag
    ensures DownloadUnit(st, p, staleId, recipeId, io).raised <==> staleId !in {1, 2, 3} && st.unitName.None?
  {
  }

  /**
   * On the scalar path the flag is get_opcua_value's flag (and the add_value
   * call's success), whatever it was before: a failure of an earlier unit is
   * masked.
   */
  lemma DownloadScalarOverwrites(st: DownloadState, p: Participant, staleId: int, recipeId: string, io: DownloadIo)
    requires p.origin != StepsOrigin && st.recipeBound
    requires io.opcuaValue(p.url, p.origin).ok
    requires io.execOk(StoreRow(StripNamespace(p.origin), io.opcuaValue(p.url, p.origin).value,
                                io.opcuaValue(p.url, p.origin).dtype, recipeId, p.unitId))
    ensures DownloadUnit(st.(flag := false), p, staleId, recipeId, io).flag
  {
  }

  /**
   * A unit whose add_value call fails, followed by a scalar unit that
   * succeeds: the download reports success.
   */
  lemma DownloadMasksEarlierFailure()
    ensures var field := Field("F", NodeId(3, "\"Step\".\"F\""), VInt(7), Int16);
            var io := DownloadIo(
              (url: string) => Some([[field]]),
              (url: string, origin: string) => Reading(true, VInt(1), Some(TypeText("Int16"))),
              (row: StoreRow) => row.unitId != 1);
            var ps := [Participant(1, "a", StepsOrigin), Participant(2, "b", "ns=3;s=\"T\"")];
            !DownloadUnits(ps[..1], 1, "9", io).flag && DownloadUnits(ps, 1, "9", io).flag
  {
    var field := Field("F", NodeId(3, "\"Step\".\"F\""), VInt(7), Int16);
    var io := DownloadIo(
      (url: string) => Some([[field]]),
      (url: string, origin: string) => Reading(true, VInt(1), Some(TypeText("Int16"))),
      (row: StoreRow) => row.unitId != 1);
    var ps := [Participant(1, "a", StepsOrigin), Participant(2, "b", "ns=3;s=\"T\"")];
    var rows := StepRows([[field]], "9", 1);
    assert rows == [FieldRow(field, "9", 1)] by {
      assert [[field]][..0] == [];
      assert StepRows([[field]], "9", 1) == StepRows([], "9", 1) + RecordRows([field], "9", 1);
      assert RecordRows([field], "9", 1) == [FieldRow(field, "9", 1)];
    }
    assert ps[..1][..0] == [];
    assert ps[..2][..1] == ps[..1];
    assert ps[..2] == ps;
  }

  // ---------------------------------------------------------------------
  // from_sql_to_units_stepdata
  // ---------------------------------------------------------------------

  /**
   * The columns of a stored step row (a row of ViewValues) that the upload
   * reads: row[2], the unit id, and the tag name and value at row[3] and row[4].
   */
  datatype StepRow = StepRow(unitId: int, tagName: string, tagValue: Value)

  /** A row of viewUnits: the unit id and the address of its server. */
  datatype UnitRow = UnitRow(unitId: int, address: string)

  /**
   * What the upload talks to: connect_opcua in wipe_running_steps, the
   * connect_opcua before the writes, reading siemens_namespace_uri from
   * configs/name_space.json and get_namespace_index for it on the address's
   * server (None when either raises), and float() for write_tag.
   */
  datatype UploadIo = UploadIo(
    wipeClient: string -> Option<Device>,
    client: string -> Option<Device>,
    namespaceIndex: string -> Option<nat>,
    toFloat: FloatParser)

  const ClearAddress := "ns=3;s=\"Recipe_Handler\".\"External\".\"ClearRunningSteps\""
  const NameAddress := "ns=3;s=\"StepData\".\"RunningSteps\".\"Name\""

  /** wipe_running_steps: write_tag's fault for writing True to ClearRunningSteps; None without a connection. */
  function Wipe(io: UploadIo, address: string): (r: Option<bool>)
    ensures r.None? <==> io.wipeClient(address).None?
  {
    match io.wipeClient(address)
    case None => None
    case Some(dev) => Some(WriteTag(dev, io.toFloat, ClearAddress, VBool(true)).fault)
  }

  /** The gate: the wipe reported no fault (None counts as no fault), or the unit is the Master (id 3). */
  predicate Proceeds(io: UploadIo, u: UnitRow) {
    Wipe(io, u.address) != Some(true) || u.unitId == 3
  }

  /**
   * write_tag on a client that write_tag may already have disconnected; on a
   * disconnected client the type read raises, so the call faults.
   */
  function WriteTagOn(dev: Device, live: bool, toFloat: FloatParser, tag: string, v: Value): WriteOutcome {
    if live then WriteTag(dev, toFloat, tag, v) else WriteOutcome(TagNotFound, true, None, true)
  }

  /** A value the device took: the unit, its address, the node id and the value written. */
  datatype Written = Written(unitId: int, address: string, tag: string, value: Value)

  function Took(o: WriteOutcome, u: UnitRow, tag: string): seq<Written> {
    if o.result == WriteSuccess && o.attempted.Some? then [Written(u.unitId, u.address, tag, o.attempted.value.0)] else []
  }

  /** [row for row in step_data if row[2] == unit_id]. */
  function RowsFor(stepData: seq<StepRow>, unitId: int): (rows: seq<StepRow>)
    ensures forall k :: 0 <= k < |rows| ==> rows[k].unitId == unitId && rows[k] in stepData
  {
    if stepData == [] then []
    else
      var rows := RowsFor(stepData[..|stepData| - 1], unitId);
      var row := stepData[|stepData| - 1];
      if row.unitId == unitId then rows + [row] else rows
  }

  /** The locals of the loop over a unit's rows: client still connected, `fault`, the device's writes, an escaped exception. */
  datatype RowsState = RowsState(live: bool, fault: Option<bool>, written: seq<Written>, raised: bool)

  /**
   * The loop over a unit's rows: each tag name is re-qualified with the
   * namespace index; ua.NodeId.from_string outside any try raises out of the
   * whole upload when the device rejects the id; write_tag's fault replaces
   * `fault`.
   */
  function WriteRows(rows: seq<StepRow>, start: RowsState, dev: Device, index: nat, u: UnitRow, toFloat: FloatParser): RowsState {
    if rows == [] then start
    else
      var st := WriteRows(rows[..|rows| - 1], start, dev, index, u, toFloat);
      var row := rows[|rows| - 1];
      var tag := Requalify(index, row.tagName);
      if st.raised then st
      else if !dev.resolves(tag) then st.(raised := true)
      else
        var o := WriteTagOn(dev, st.live, toFloat, tag, row.tagValue);
        RowsState(st.live && !o.disconnected, Some(o.fault), st.written + Took(o, u, tag), false)
  }

  /** The locals of the loop over the units: `fault`, the device's writes, and the exception that escaped, if any. */
  datatype UploadState = UploadState(fault: Option<bool>, written: seq<Written>, error: Option<string>)

  /** What escapes when the namespace file or get_namespace_index raises, and when ua.NodeId.from_string does. */
  const NamespaceFailure := "get_namespace_index"
  const NodeIdFailure := "ua.NodeId.from_string"

  /**
   * One unit: wipe, gate, filter the rows, connect, look up the namespace
   * index, write the rows and then the recipe name. A unit with no rows or no
   * connection is skipped; nothing clears the success flag.
   */
  function UploadUnit(st: UploadState, u: UnitRow, stepData: seq<StepRow>, selectedName: string, io: UploadIo): UploadState {
    var wiped := Wipe(io, u.address);
    var rows := RowsFor(stepData, u.unitId);
    if !Proceeds(io, u) || rows == [] || io.client(u.address).None? then UploadState(wiped, st.written, None)
    else if io.namespaceIndex(u.address).None? then UploadState(wiped, st.written, Some(NamespaceFailure))
    else
      var dev := io.client(u.address).value;
      var rs := WriteRows(rows, RowsState(true, wiped, st.written, false), dev, io.namespaceIndex(u.address).value, u, io.toFloat);
      if rs.raised then UploadState(rs.fault, rs.written, Some(NodeIdFailure))
      else
        var o := WriteTagOn(dev, rs.live, io.toFloat, NameAddress, VStr(selectedName));
        UploadState(rs.fault, rs.written + Took(o, u, NameAddress), None)
  }

  function UploadUnits(units: seq<UnitRow>, stepData: seq<StepRow>, selectedName: string, io: UploadIo): UploadState {
    if units == [] then UploadState(None, [], None)
    else
      var st := UploadUnits(units[..|units| - 1], stepData, selectedName, io);
      if st.error.Some? then st else UploadUnit(st, units[|units| - 1], stepData, selectedName, io)
  }

  /** The effect of from_sql_to_units_stepdata: its return value, the device's writes, and which message it shows. */
  datatype UploadOutcome = UploadOutcome(ret: Result<bool>, written: seq<Written>, reportsSuccess: bool)

  /**
   * from_sql_to_units_stepdata(step_data, texts, selected_name), with the
   * rows of viewUnits (get_units gives None for none, and the loop over None
   * raises).
   */
  function Upload(units: seq<UnitRow>, stepData: seq<StepRow>, selectedName: string, io: UploadIo): UploadOutcome {
    if units == [] then UploadOutcome(Raised("TypeError: 'NoneType' object is not iterable"), [], false)
    else
      var st := UploadUnits(units, stepData, selectedName, io);
      if st.error.Some? then UploadOutcome(Raised(st.error.value), st.written, false)
      else UploadOutcome(Ok(true), st.written, st.fault != Some(true))
  }

  lemma {:induction false} WriteRowsRaisedSticks(rows: seq<StepRow>, k: nat, start: RowsState, dev: Device, index: nat, u: UnitRow, toFloat: FloatParser)
    requires k <= |rows| && WriteRows(rows[..k], start, dev, index, u, toFloat).raised
    ensures WriteRows(rows, start, dev, index, u, toFloat) == WriteRows(rows[..k], start, dev, index, u, toFloat)
    decreases |rows|
  {
    if k < |rows| {
      var init := rows[..|rows| - 1];
      assert init[..k] == rows[..k];
      WriteRowsRaisedSticks(init, k, start, dev, index, u, toFloat);
    } else {
      assert rows[..k] == rows;
    }
  }

  lemma {:induction false} UploadRaisedSticks(units: seq<UnitRow>, k: nat, stepData: seq<StepRow>, selectedName: string, io: UploadIo)
    requires k <= |units| && UploadUnits(units[..k], stepData, selectedName, io).error.Some?
    ensures UploadUnits(units, stepData, selectedName, io) == UploadUnits(units[..k], stepData, selectedName, io)
    decreases |units|
  {
    if k < |units| {
      var init := units[..|units| - 1];
      assert init[..k] == units[..k];
      UploadRaisedSticks(init, k, stepData, selectedName, io);
    } else {
      assert units[..k] == units;
    }
  }

  /** The loop `for row in filtered_data` of one unit. */
  method WriteUnitRows(rows: seq<StepRow>, start: RowsState, dev: Device, index: nat, u: UnitRow, toFloat: FloatParser)
    returns (rs: RowsState)
    requires !start.raised
    ensures rs == WriteRows(rows, start, dev, index, u, toFloat)
  {
    var live, fault, written := start.live, start.fault, start.written;
    var i := 0;
    while i < |rows|
      invariant 0 <= i <= |rows|
      invariant WriteRows(rows[..i], start, dev, index, u, toFloat) == RowsState(live, fault, written, false)
    {
      var row := rows[i];
      assert rows[..i + 1][..i] == rows[..i];
      var tag := Requalify(index, row.tagName);
      if !dev.resolves(tag) {
        WriteRowsRaisedSticks(rows, i + 1, start, dev, index, u, toFloat);
        return RowsState(live, fault, written, true);
      }
      var o := WriteTagOn(dev, live, toFloat, tag, row.tagValue);
      fault := Some(o.fault);
      if o.disconnected {
        live := false;
      }
      written := written + Took(o, u, tag);
      i := i + 1;
    }
    assert rows[..i] == rows;
    rs := RowsState(live, fault, written, false);
  }

  /** The body of the loop over the units, for one unit. */
  method UploadUnitBody(st: UploadState, u: UnitRow, stepData: seq<StepRow>, selectedName: string, io: UploadIo)
    returns (next: UploadState)
    requires st.error.None?
    ensures next == UploadUnit(st, u, stepData, selectedName, io)
  {
    var fault := Wipe(io, u.address);
    next := UploadState(fault, st.written, None);
    if fault != Some(true) || u.unitId == 3 {
      var filtered := RowsFor(stepData, u.unitId);
      if filtered == [] {
        return;
      }
      var client := io.client(u.address);
      if client.None? {
        return;
      }
      var dev := client.value;
      var namespaceIndex := io.namespaceIndex(u.address);
      if namespaceIndex.None? {
        return UploadState(fault, st.written, Some(NamespaceFailure));
      }
      var rs := WriteUnitRows(filtered, RowsState(true, fault, st.written, false), dev, namespaceIndex.value, u, io.toFloat);
      if rs.raised {
        return UploadState(rs.fault, rs.written, Some(NodeIdFailure));
      }
      var o := WriteTagOn(dev, rs.live, io.toFloat, NameAddress, VStr(selectedName));
      next := UploadState(rs.fault, rs.written + Took(o, u, NameAddress), None);
    }
  }

  /** from_sql_to_units_stepdata(step_data, texts, selected_name). */
  method FromSqlToUnitsStepdata(units: seq<UnitRow>, stepData: seq<StepRow>, selectedName: string, io: UploadIo)
    returns (o: UploadOutcome)
    ensures o == Upload(units, stepData, selectedName, io)
  {
    if units == [] {
      return UploadOutcome(Raised("TypeError: 'NoneType' object is not iterable"), [], false);
    }
    var allUnitsProcessedSuccessfully := true;
    var st := UploadState(None, [], None);
    var i := 0;
    while i < |units|
      invariant 0 <= i <= |units|
      invariant UploadUnits(units[..i], stepData, selectedName, io) == st && st.error.None?
    {
      assert units[..i + 1][..i] == units[..i];
      st := UploadUnitBody(st, units[i], stepData, selectedName, io);
      if st.error.Some? {
        UploadRaisedSticks(units, i + 1, stepData, selectedName, io);
        return UploadOutcome(Raised(st.error.value), st.written, false);
      }
      i := i + 1;
    }
    assert units[..i] == units;
    o := UploadOutcome(Ok(allUnitsProcessedSuccessfully), st.written, allUnitsProcessedSuccessfully && st.fault != Some(true));
  }

  /** A write the device took comes from a unit that passed the gate: its recipe name, or one of its own rows re-qualified with its server's namespace index. */
  ghost predicate Traced(w: Written, units: seq<UnitRow>, stepData: seq<StepRow>, io: UploadIo) {
    exists u :: u in units && Proceeds(io, u) && w.unitId == u.unitId && w.address == u.address &&
      (w.tag == NameAddress || exists row :: row in stepData && row.unitId == u.unitId && io.namespaceIndex(u.address).Some? && w.tag == Requalify(io.namespaceIndex(u.address).value, row.tagName))
  }

  /** The rows loop adds only writes of those rows' re-qualified tags, for that unit. */
  lemma {:induction false} WriteRowsOrigin(rows: seq<StepRow>, start: RowsState, dev: Device, index: nat, u: UnitRow, toFloat: FloatParser)
    ensures var r := WriteRows(rows, start, dev, index, u, toFloat);
      |start.written| <= |r.written| && r.written[..|start.written|] == start.written &&
      forall k :: |start.written| <= k < |r.written| ==>
        r.written[k].unitId == u.unitId && r.written[k].address == u.address &&
        exists row :: row in rows && r.written[k].tag == Requalify(index, row.tagName)
  {
    if rows != [] {
      var init := rows[..|rows| - 1];
      WriteRowsOrigin(init, start, dev, index, u, toFloat);
      var st := WriteRows(init, start, dev, index, u, toFloat);
      var row := rows[|rows| - 1];
      forall k | |start.written| <= k < |st.written|
        ensures exists row :: row in rows && st.written[k].tag == Requalify(index, row.tagName)
      {
        var row' :| row' in init && st.written[k].tag == Requalify(index, row'.tagName);
        assert row' in rows;
      }
    }
  }

  /** Every write of the upload traces back to a unit that passed the wipe gate and to that unit's own rows or its recipe name. */
  lemma {:induction false} UploadWritesTraced(units: seq<UnitRow>, stepData: seq<StepRow>, selectedName: string, io: UploadIo)
    ensures forall w :: w in UploadUnits(units, stepData, selectedName, io).written ==> Traced(w, units, stepData, io)
  {
    if units != [] {
      var init := units[..|units| - 1];
      var u := units[|units| - 1];
      UploadWritesTraced(init, stepData, selectedName, io);
      var st := UploadUnits(init, stepData, selectedName, io);
      forall w | w in st.written ensures Traced(w, units, stepData, io) {
        assert Traced(w, init, stepData, io);
        var u' :| u' in init && Proceeds(io, u') && w.unitId == u'.unitId && w.address == u'.address &&
          (w.tag == NameAddress || exists row :: row in stepData && row.unitId == u'.unitId && io.namespaceIndex(u'.address).Some? && w.tag == Requalify(io.namespaceIndex(u'.address).value, row.tagName));
        assert u' in units;
      }
      if st.error.None? {
        var rows := RowsFor(stepData, u.unitId);
        if Proceeds(io, u) && rows != [] && io.client(u.address).Some? && io.namespaceIndex(u.address).Some? {
          var dev := io.client(u.address).value;
          var index := io.namespaceIndex(u.address).value;
          var start := RowsState(true, Wipe(io, u.address), st.written, false);
          WriteRowsOrigin(rows, start, dev, index, u, io.toFloat);
          var rs := WriteRows(rows, start, dev, index, u, io.toFloat);
          var r := UploadUnits(units, stepData, selectedName, io);
          forall k | 0 <= k < |r.written| ensures Traced(r.written[k], units, stepData, io) {
            if k < |st.written| {
              assert r.written[k] == st.written[k];
            } else if k < |rs.written| {
              var row :| row in rows && rs.written[k].tag == Requalify(index, row.tagName);
              assert row in stepData && row.unitId == u.unitId;
              assert r.written[k] == rs.written[k];
            }
          }
        }
      }
    }
  }

  /** A unit whose wipe faulted writes nothing unless it is the Master; the Master is never gated out. */
  lemma UploadGate(units: seq<UnitRow>, stepData: seq<StepRow>, selectedName: string, io: UploadIo, w: Written)
    requires w in Upload(units, stepData, selectedName, io).written
    ensures exists u :: u in units && u.unitId == w.unitId && u.address == w.address && (Wipe(io, u.address) != Some(true) || u.unitId == 3)
  {
    UploadWritesTraced(units, stepData, selectedName, io);
  }

  /**
   * A unit's turn raises exactly when it passes the gate, has rows and a
   * connection, and then the namespace lookup fails or the device rejects
   * one of its re-qualified node ids; what came before does not matter.
   */
  predicate UnitRaises(u: UnitRow, stepData: seq<StepRow>, io: UploadIo) {
    Proceeds(io, u) && RowsFor(stepData, u.unitId) != [] && io.client(u.address).Some? &&
    (io.namespaceIndex(u.address).None? ||
     exists row :: row in RowsFor(stepData, u.unitId) &&
       !io.client(u.address).value.resolves(Requalify(io.namespaceIndex(u.address).value, row.tagName)))
  }

  /** The rows loop raises exactly when some row's node id is rejected. */
  lemma {:induction false} WriteRowsRaises(rows: seq<StepRow>, start: RowsState, dev: Device, index: nat, u: UnitRow, toFloat: FloatParser)
    requires !start.raised
    ensures WriteRows(rows, start, dev, index, u, toFloat).raised <==> exists row :: row in rows && !dev.resolves(Requalify(index, row.tagName))
  {
    if rows != [] {
      var init := rows[..|rows| - 1];
      var last := rows[|rows| - 1];
      WriteRowsRaises(init, start, dev, index, u, toFloat);
      assert rows == init + [last];
      if exists row :: row in init && !dev.resolves(Requalify(index, row.tagName)) {
        var row :| row in init && !dev.resolves(Requalify(index, row.tagName));
        assert row in rows;
      }
    }
  }

  /** One unit's turn, after turns that did not raise, raises exactly when UnitRaises says. */
  lemma UploadUnitRaises(st: UploadState, u: UnitRow, stepData: seq<StepRow>, selectedName: string, io: UploadIo)
    requires st.error.None?
    ensures UploadUnit(st, u, stepData, selectedName, io).error.Some? <==> UnitRaises(u, stepData, io)
  {
    var rows := RowsFor(stepData, u.unitId);
    if Proceeds(io, u) && rows != [] && io.client(u.address).Some? && io.namespaceIndex(u.address).Some? {
      WriteRowsRaises(rows, RowsState(true, Wipe(io, u.address), st.written, false), io.client(u.address).value, io.namespaceIndex(u.address).value, u, io.toFloat);
    }
  }

  /** The unit loop raises exactly when one of the units raises. */
  lemma {:induction false} UploadUnitsRaises(units: seq<UnitRow>, stepData: seq<StepRow>, selectedName: string, io: UploadIo)
    ensures UploadUnits(units, stepData, selectedName, io).error.Some? <==> exists u :: u in units && UnitRaises(u, stepData, io)
  {
    if units != [] {
      var init := units[..|units| - 1];
      var last := units[|units| - 1];
      UploadUnitsRaises(init, stepData, selectedName, io);
      assert units == init + [last];
      var st := UploadUnits(init, stepData, selectedName, io);
      if st.error.Some? {
        var u :| u in init && UnitRaises(u, stepData, io);
        assert u in units;
      } else {
        UploadUnitRaises(st, last, stepData, selectedName, io);
      }
    }
  }

  /**
   * The upload raises exactly when get_units found no units or some unit
   * raises, and then it raises what that unit raised; otherwise it returns
   * True: no branch that clears the flag can run.
   */
  lemma UploadReturnsTrue(units: seq<UnitRow>, stepData: seq<StepRow>, selectedName: string, io: UploadIo)
    ensures var o := Upload(units, stepData, selectedName, io);
      (o.ret.Raised? <==> units == [] || exists u :: u in units && UnitRaises(u, stepData, io)) &&
      (o.ret.Raised? && units != [] ==> o.ret.reason in {NamespaceFailure, NodeIdFailure}) &&
      (o.ret.Ok? ==> o.ret.value)
  {
    UploadUnitsRaises(units, stepData, selectedName, io);
    UploadErrorKinds(units, stepData, selectedName, io);
  }

  /** Only the namespace lookup and ua.NodeId.from_string raise out of the unit loop. */
  lemma {:induction false} UploadErrorKinds(units: seq<UnitRow>, stepData: seq<StepRow>, selectedName: string, io: UploadIo)
    ensures var e := UploadUnits(units, stepData, selectedName, io).error;
      e.Some? ==> e.value == NamespaceFailure || e.value == NodeIdFailure
  {
    if units != [] {
      UploadErrorKinds(units[..|units| - 1], stepData, selectedName, io);
    }
  }

  // ---------------------------------------------------------------------
  // db_opcua_data_checker
  // ---------------------------------------------------------------------

  /** A row of viewValues as the checker selects it: UnitID, TagName, TagValue, TagDataType. */
  datatype DbRow = DbRow(unitId: Value, tagName: Value, tagValue: Value, tagType: Value)

  /** `None in row`. */
  predicate HasNone(row: DbRow) {
    row.unitId == VNone || row.tagName == VNone || row.tagValue == VNone || row.tagType == VNone
  }

  /** The assignments opcua_results[identifier] = str(value) made for one step, in field order. */
  function FieldItems(rec: Record): (items: seq<(string, string)>)
    ensures |items| == |rec|
    ensures forall k :: 0 <= k < |rec| ==> items[k] == (rec[k].node.identifier, Str(rec[k].value))
  {
    seq(|rec|, k requires 0 <= k < |rec| => (rec[k].node.identifier, Str(rec[k].value)))
  }

  /** The assignments to opcua_results over all steps, in order. */
  function DeviceItems(records: seq<Record>): seq<(string, string)> {
    if records == [] then [] else DeviceItems(records[..|records| - 1]) + FieldItems(records[|records| - 1])
  }

  /** The assignments db_results[tag_name] = tag_value, in row order. */
  function StoreItems(rows: seq<DbRow>): (items: seq<(Value, Value)>)
    ensures |items| == |rows|
    ensures forall k :: 0 <= k < |rows| ==> items[k] == (rows[k].tagName, rows[k].tagValue)
  {
    seq(|rows|, k requires 0 <= k < |rows| => (rows[k].tagName, rows[k].tagValue))
  }

  /** What the checker logs for one stored tag. */
  datatype Verdict = MissingOnDevice | Differs | Same

  /** opcua_results.get(tag_name): the device's keys are node identifiers, which are text. */
  function DeviceLookup(opcua: Dict<string, string>, tagName: Value): (r: Option<string>)
    ensures r.Some? <==> tagName.VStr? && tagName.s in Keys(opcua)
  {
    if tagName.VStr? then Get(opcua, tagName.s) else None
  }

  /** The comparison of a stored value with the device's text for the same tag. */
  function Classify(device: Option<string>, stored: Value): (v: Verdict)
    ensures v == MissingOnDevice <==> device.None?
    ensures v == Same <==> device.Some? && stored == VStr(device.value)
  {
    match device
    case None => MissingOnDevice
    case Some(text) => if stored == VStr(text) then Same else Differs
  }

  /** One verdict per stored tag, in the order db_results keeps them. */
  function Verdicts(store: Dict<Value, Value>, opcua: Dict<string, string>): (vs: seq<(Value, Verdict)>)
    ensures |vs| == |store|
    ensures forall k :: 0 <= k < |store| ==> vs[k].0 == store[k].0
  {
    seq(|store|, k requires 0 <= k < |store| => (store[k].0, Classify(DeviceLookup(opcua, store[k].0), store[k].1)))
  }

  /** The checker's return value and the verdicts it logs. */
  datatype CheckerOutcome = CheckerOutcome(ret: Result<bool>, verdicts: seq<(Value, Verdict)>)

  /** What cnxn.close() raises in the finally clause when get_database_connection gave (None, None). */
  const CloseFailure := "AttributeError: 'NoneType' object has no attribute 'close'"

  /**
   * db_opcua_data_checker, given whether get_database_connection connected,
   * what get_servo_steps returned and what the query gave. Iterating None (no
   * step data) raises outside the try. Without a connection cursor.execute
   * raises inside the try, and the handler's False is replaced by what
   * closing the missing connection raises in the finally clause. With one, a
   * failed query, no rows or a row with a None field give False; otherwise
   * True, whatever the verdicts.
   */
  function DataCheck(steps: Option<seq<Record>>, dbConnected: bool, rows: Result<seq<DbRow>>): CheckerOutcome {
    if steps.None? then CheckerOutcome(Raised("AttributeError: 'NoneType' object has no attribute 'items'"), [])
    else if !dbConnected then CheckerOutcome(Raised(CloseFailure), [])
    else QueryCheck(steps.value, rows)
  }

  /** The body of the try with a connection: the query and the comparison against what the device gave. */
  function QueryCheck(records: seq<Record>, rows: Result<seq<DbRow>>): CheckerOutcome {
    if rows.Raised? || rows.value == [] || exists k :: 0 <= k < |rows.value| && HasNone(rows.value[k]) then CheckerOutcome(Ok(false), [])
    else
      var opcua := FromItems([], DeviceItems(records));
      var store := FromItems([], StoreItems(rows.value));
      CheckerOutcome(Ok(true), Verdicts(store, opcua))
  }

  /**
   * The checker answers True or False only when it has step data and a
   * connection; otherwise it raises and logs no verdict.
   */
  lemma CheckerAnswersOnlyConnected(steps: Option<seq<Record>>, dbConnected: bool, rows: Result<seq<DbRow>>)
    ensures var o := DataCheck(steps, dbConnected, rows);
      (o.ret.Ok? <==> steps.Some? && dbConnected) &&
      (o.ret.Raised? ==> o.verdicts == [])
  {
  }

  /**
   * With step data and complete rows the checker answers True, whatever the
   * comparisons find, and logs one verdict for each distinct tag name of the
   * rows, in first-appearance order.
   */
  lemma CheckerCoversTags(records: seq<Record>, rows: seq<DbRow>)
    requires rows != [] && forall k :: 0 <= k < |rows| ==> !HasNone(rows[k])
    ensures var o := DataCheck(Some(records), true, Ok(rows));
      o.ret == Ok(true) &&
      (forall i, j :: 0 <= i < j < |o.verdicts| ==> o.verdicts[i].0 != o.verdicts[j].0) &&
      (set i | 0 <= i < |o.verdicts| :: o.verdicts[i].0) == (set k | 0 <= k < |rows| :: rows[k].tagName)
  {
    VerdictsCoverTags(rows, FromItems([], DeviceItems(records)));
  }

  /** The verdicts over db_results name each distinct tag name of the rows once. */
  lemma VerdictsCoverTags(rows: seq<DbRow>, opcua: Dict<string, string>)
    ensures var vs := Verdicts(FromItems([], StoreItems(rows)), opcua);
      (forall i, j :: 0 <= i < j < |vs| ==> vs[i].0 != vs[j].0) &&
      (set i | 0 <= i < |vs| :: vs[i].0) == (set k | 0 <= k < |rows| :: rows[k].tagName)
  {
    var vs := Verdicts(FromItems([], StoreItems(rows)), opcua);
    FromItemsDistinct([], StoreItems(rows));
    var logged := set i | 0 <= i < |vs| :: vs[i].0;
    var named := set k | 0 <= k < |rows| :: rows[k].tagName;
    forall t | t in named ensures t in logged {
      var k :| 0 <= k < |rows| && rows[k].tagName == t;
      var i := StoredTagLogged(rows, opcua, k);
    }
    forall t | t in logged ensures t in named {
      var i :| 0 <= i < |vs| && vs[i].0 == t;
      var k := LoggedTagStored(rows, opcua, i);
    }
  }

  /** The tag name of every row has a verdict. */
  lemma StoredTagLogged(rows: seq<DbRow>, opcua: Dict<string, string>, k: nat) returns (i: nat)
    requires k < |rows|
    ensures var vs := Verdicts(FromItems([], StoreItems(rows)), opcua);
      i < |vs| && vs[i].0 == rows[k].tagName
  {
    var items := StoreItems(rows);
    var store := FromItems([], items);
    FromItemsKeys(items, rows[k].tagName);
    assert items[k].0 == rows[k].tagName;
    i :| 0 <= i < |store| && Keys(store)[i] == rows[k].tagName;
  }

  /** Every verdict is for the tag name of some row. */
  lemma LoggedTagStored(rows: seq<DbRow>, opcua: Dict<string, string>, i: nat) returns (k: nat)
    requires i < |Verdicts(FromItems([], StoreItems(rows)), opcua)|
    ensures k < |rows| && rows[k].tagName == Verdicts(FromItems([], StoreItems(rows)), opcua)[i].0
  {
    var items := StoreItems(rows);
    var store := FromItems([], items);
    var t := store[i].0;
    assert Keys(store)[i] == t;
    FromItemsKeys(items, t);
    k :| 0 <= k < |items| && items[k].0 == t;
  }



  /**
   * Each verdict compares the LAST row's value for its tag name with the
   * LAST text the device gave for that identifier.
   */
  lemma CheckerComparesLast(records: seq<Record>, rows: seq<DbRow>)
    requires rows != [] && forall k :: 0 <= k < |rows| ==> !HasNone(rows[k])
    ensures var o := DataCheck(Some(records), true, Ok(rows));
      forall i :: 0 <= i < |o.verdicts| ==>
        var t := o.verdicts[i].0;
        LastValue(StoreItems(rows), t).Some? &&
        o.verdicts[i].1 == Classify(if t.VStr? then LastValue(DeviceItems(records), t.s) else None, LastValue(StoreItems(rows), t).value)
  {
    var items := StoreItems(rows);
    var store := FromItems([], items);
    var o := DataCheck(Some(records), true, Ok(rows));
    forall i | 0 <= i < |o.verdicts|
      ensures var t := o.verdicts[i].0;
        LastValue(items, t).Some? &&
        o.verdicts[i].1 == Classify(if t.VStr? then LastValue(DeviceItems(records), t.s) else None, LastValue(items, t).value)
    {
      FromItemsEntry(items, i);
      var t := store[i].0;
      if t.VStr? {
        GetFromItems([], DeviceItems(records), t.s);
      }
    }
  }

  /** The nested loops that fill opcua_results from the step data. */
  method CollectDeviceResults(records: seq<Record>) returns (opcua: Dict<string, string>)
    ensures opcua == FromItems([], DeviceItems(records))
  {
    opcua := [];
    var i := 0;
    while i < |records|
      invariant 0 <= i <= |records|
      invariant opcua == FromItems([], DeviceItems(records[..i]))
    {
      ghost var before := DeviceItems(records[..i]);
      opcua := CollectStepResults(opcua, records[i]);
      assert records[..i + 1][..i] == records[..i];
      FromItemsAppend([], before, FieldItems(records[i]));
      i := i + 1;
    }
    assert records[..i] == records;
  }

  /** The inner loop over one step's fields. */
  method CollectStepResults(start: Dict<string, string>, rec: Record) returns (opcua: Dict<string, string>)
    ensures opcua == FromItems(start, FieldItems(rec))
  {
    ghost var items := FieldItems(rec);
    opcua := start;
    var j := 0;
    while j < |rec|
      invariant 0 <= j <= |rec|
      invariant opcua == FromItems(start, items[..j])
    {
      FromItemsStep(start, items, j);
      opcua := Put(opcua, rec[j].node.identifier, Str(rec[j].value));
      j := j + 1;
    }
    assert items[..j] == items;
  }

  /** The loop over db_results comparing each stored value with the device's. */
  method CompareResults(store: Dict<Value, Value>, opcua: Dict<string, string>) returns (verdicts: seq<(Value, Verdict)>)
    ensures verdicts == Verdicts(store, opcua)
  {
    verdicts := [];
    var k := 0;
    while k < |store|
      invariant 0 <= k <= |store|
      invariant verdicts == Verdicts(store, opcua)[..k]
    {
      var (tagName, tagValue) := store[k];
      verdicts := verdicts + [(tagName, Classify(DeviceLookup(opcua, tagName), tagValue))];
      k := k + 1;
    }
  }

  /** db_opcua_data_checker(recipe_id). */
  method DbOpcuaDataChecker(servoSteps: Option<seq<Record>>, dbConnected: bool, rows: Result<seq<DbRow>>) returns (o: CheckerOutcome)
    ensures o == DataCheck(servoSteps, dbConnected, rows)
  {
    if servoSteps.None? {
      return CheckerOutcome(Raised("AttributeError: 'NoneType' object has no attribute 'items'"), []);
    }
    var opcua := CollectDeviceResults(servoSteps.value);
    if !dbConnected {
      // cursor.execute on None raises inside the try; the finally clause then raises again.
      return CheckerOutcome(Raised(CloseFailure), []);
    }
    if rows.Raised? {
      return CheckerOutcome(Ok(false), []);
    }
    if rows.value == [] {
      return CheckerOutcome(Ok(false), []);
    }
    var store := CollectStoreResults(rows.value);
    if store.None? {
      return CheckerOutcome(Ok(false), []);
    }
    var verdicts := CompareResults(store.value, opcua);
    o := CheckerOutcome(Ok(true), verdicts);
  }

  /** The loop over the fetched rows filling db_results; None when it stops at a row holding None. */
  method CollectStoreResults(fetched: seq<DbRow>) returns (store: Option<Dict<Value, Value>>)
    ensures store.None? <==> exists k :: 0 <= k < |fetched| && HasNone(fetched[k])
    ensures store.Some? ==> store.value == FromItems([], StoreItems(fetched))
  {
    ghost var items := StoreItems(fetched);
    var db: Dict<Value, Value> := [];
    var i := 0;
    while i < |fetched|
      invariant 0 <= i <= |fetched|
      invariant forall k :: 0 <= k < i ==> !HasNone(fetched[k])
      invariant db == FromItems([], items[..i])
    {
      if HasNone(fetched[i]) {
        return None;
      }
      assert forall k :: 0 <= k < i + 1 ==> !HasNone(fetched[k]);
      FromItemsStep([], items, i);
      db := Put(db, fetched[i].tagName, fetched[i].tagValue);
      i := i + 1;
    }
    assert items[..i] == items;
    store := Some(db);
  }
}
