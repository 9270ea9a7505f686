/**
 * The script executor the engine drives. Its internals (variable substitution, the
 * SQL driver) are not modelled: it logs every call it receives, and its failures are
 * an input — the names of the scripts it rejects and whether the schema check fails.
 */
module Executors {
  import opened Wrappers
  import opened Migrations

  /** Injected failures: scripts whose execution throws, and a failing `VerifySchema`. */
  datatype ExecutorFaults = ExecutorFaults(failing: set<string>, schemaInvalid: bool)

  /** What `Execute(script)` does under the given faults. */
  function ExecuteResult(faults: ExecutorFaults, script: SqlScript): (r: Outcome<Error>)
    ensures r.Fail? <==> script.name in faults.failing
    ensures r.Fail? ==> r.error == ExecutionFailed(script.name)
  {
    if script.name in faults.failing then Fail(ExecutionFailed(script.name)) else Pass
  }

  /** What `VerifySchema()` does under the given faults. */
  function VerifyResult(faults: ExecutorFaults): (r: Outcome<Error>)
    ensures r.Fail? <==> faults.schemaInvalid
    ensures r.Fail? ==> r.error == SchemaInvalid
  {
    if faults.schemaInvalid then Fail(SchemaInvalid) else Pass
  }

  /** An executor that records, in order, every script it was asked to run. */
  class ScriptExecutor {
    const faults: ExecutorFaults
    var calls: seq<SqlScript>
    var verifications: nat

    constructor (faults: ExecutorFaults)
      ensures this.faults == faults && calls == [] && verifications == 0
    {
      this.faults := faults;
      calls := [];
      verifications := 0;
    }

    method VerifySchema() returns (r: Outcome<Error>)
      modifies this
      ensures verifications == old(verifications) + 1 && calls == old(calls)
      ensures r == VerifyResult(faults)
    {
      verifications := verifications + 1;
      r := if faults.schemaInvalid then Fail(SchemaInvalid) else Pass;
    }

    /** Runs one script; the call is logged whether or not it fails. */
    method Execute(script: SqlScript) returns (r: Outcome<Error>)
      modifies this
      ensures calls == old(calls) + [script] && verifications == old(verifications)
      ensures r == ExecuteResult(faults, script)
    {
      calls := calls + [script];
      r := if script.name in faults.failing then Fail(ExecutionFailed(script.name)) else Pass;
    }
  }
}
