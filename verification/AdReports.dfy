/** What the broker and the log are told of each operation, field by field. */
module AdReports {
  import opened Text
  import opened Json
  import opened AuditRecords
  import opened Journal
  import opened AdMode
  import opened AdSteps

  lemma WholeValue(v: Json)
    ensures ParseDocument(Render(v)) == Some(v)
  {
    RoundTrip(v, "");
    assert Render(v) + "" == Render(v);
  }

  /** The entry names the operation, its type and its result. */
  lemma EntryReads(op: Operation, result: Result<Json>)
    ensures var e := LoggedOf(op, result);
            && FieldIn(e.detail, "id") == Some(Str(op.id)) && FieldIn(e.detail, "op") == Some(Str(op.opType))
            && (e.event == "AD_OP_OK" <==> result.Ok?) && (e.event == "AD_OP_FAIL" <==> result.Err?)
            && (result.Ok? ==> FieldIn(e.detail, "result") == Some(result.value))
            && (result.Err? ==> FieldIn(e.detail, "error") == Some(Str(result.error)))
  {
    match result {
      case Ok(detail) =>
        var keys, values := ["id", "op", "result"], [Str(op.id), Str(op.opType), detail];
        assert |keys[0]| == |keys[1]| && keys[0][0] != keys[1][0];
        FieldsRead(keys, values, 0);
        FieldsRead(keys, values, 1);
        FieldsRead(keys, values, 2);
      case Err(e) =>
        var keys, values := ["error", "id", "op"], [Str(e), Str(op.id), Str(op.opType)];
        assert |keys[1]| == |keys[2]| && keys[1][0] != keys[2][0];
        FieldsRead(keys, values, 0);
        FieldsRead(keys, values, 1);
        FieldsRead(keys, values, 2);
    }
  }

  /** The report carries the same result, as text. */
  lemma ReportReads(op: Operation, result: Result<Json>)
    ensures var r := ReportOf(op, result);
            && r.id == op.id && (r.success <==> result.Ok?)
            && (result.Ok? ==>
                 && r.error == None && r.result.Some? && ParseDocument(r.result.value) == Some(result.value))
            && (result.Err? ==> r.result == None && r.error == Some(result.error))
  {
    if result.Ok? {
      WholeValue(result.value);
    }
  }

  /**
   Report and entry of a completed operation. Wherever a pass is dropped, the broker was told of every operation
   completed by then, under its own id, and the log holds an entry beside it: both say success, with the same
   detail, if the operation succeeded, and failure, with the same message, if it failed.
   */
  lemma ReportAndEntry(env: Env, start: Pass, ops: seq<Operation>, k: nat, j: nat)
    requires j < Reach(env, start, ops, k).phase.i
    ensures var m := Reach(env, start, ops, k);
            && j < |ops| && |start.reports| + j < |m.pass.reports| && |start.log| + j < |m.pass.log|
            && var result := ResultAt(env, start, ops, j);
               var report, entry := m.pass.reports[|start.reports| + j], m.pass.log[|start.log| + j];
               && report.id == ops[j].id && FieldIn(entry.detail, "id") == Some(Str(ops[j].id))
               && FieldIn(entry.detail, "op") == Some(Str(ops[j].opType))
               && (report.success <==> result.Ok?) && (entry.event == "AD_OP_OK" <==> result.Ok?)
               && (entry.event == "AD_OP_FAIL" <==> result.Err?)
               && (result.Ok? ==>
                    && report.error == None && report.result.Some?
                    && ParseDocument(report.result.value) == Some(result.value)
                    && FieldIn(entry.detail, "result") == Some(result.value))
               && (result.Err? ==>
                    && report.result == None && report.error == Some(result.error)
                    && FieldIn(entry.detail, "error") == Some(Str(result.error)))
  {
    LagAtMostOne(env, start, ops, k);
    EntryReads(ops[j], ResultAt(env, start, ops, j));
    ReportReads(ops[j], ResultAt(env, start, ops, j));
  }

  /** The same of every operation of a pass that ran to its end, or to the operation `i` before which it stopped. */
  lemma CompletedReports(env: Env, start: Pass, ops: seq<Operation>, i: nat, j: nat)
    requires j < i <= |ops| && RunOps(env, start, ops[..i]).1 == None
    ensures var p := RunOps(env, start, ops[..i]).0;
            && |p.reports| == |start.reports| + i && |p.log| == |start.log| + i
            && var result := ResultAt(env, start, ops, j);
               var report, entry := p.reports[|start.reports| + j], p.log[|start.log| + j];
               && report.id == ops[j].id && FieldIn(entry.detail, "id") == Some(Str(ops[j].id))
               && (report.success <==> result.Ok?) && (entry.event == "AD_OP_OK" <==> result.Ok?)
               && (entry.event == "AD_OP_FAIL" <==> result.Err?)
               && (result.Ok? ==> report.error == None && FieldIn(entry.detail, "result") == Some(result.value))
               && (result.Err? ==> report.error == Some(result.error) && report.result == None)
  {
    CompletedTrail(env, start, ops, i);
    EntryReads(ops[j], ResultAt(env, start, ops, j));
    ReportReads(ops[j], ResultAt(env, start, ops, j));
  }
}
