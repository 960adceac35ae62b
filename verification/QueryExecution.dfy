/**
 The gate and the query log of `QueryExecutor`
 (src/infrastructure/erp/query_executor.py). The database driver is a parameter.
 */
module QueryExecution {
  import opened Wrappers
  import opened SqlValidator

  type DbRow = map<string, string>

  /** What the driver does with a statement and the tenant bound to `:tenant_id`. */
  datatype DriverOutcome =
    | Rows(rows: seq<DbRow>)
    | TenantError
    | DriverError(message: string)

  type Driver = (string, string) -> DriverOutcome

  datatype ExecutionResult = ExecutionResult(
    queryId: string, sql: string, tenant: string, rows: seq<DbRow>, rowCount: nat,
    columns: set<string>, error: Option<string>)

  datatype LogEntry = LogEntry(
    queryId: string, nlQuery: string, sql: string, tenant: string, rowCount: nat, error: Option<string>)

  datatype Outcome =
    | TenantFilterMissing
    | Refused(errors: seq<Error>)
    | Executed(result: ExecutionResult)

  /** The entry says what was executed for whom, and the text is one that passes. */
  predicate Vouched(e: LogEntry) {
    e.sql == Sanitize(e.nlQuery) && ReportOf(e.nlQuery).CanExecute() && ReportOf(e.sql).CanExecute()
  }

  class QueryExecutor {
    const driver: Driver
    var log: seq<LogEntry>

    constructor (driver: Driver)
      ensures this.driver == driver && log == []
    {
      this.driver := driver;
      log := [];
    }

    predicate AllVouched()
      reads this
    {
      forall i :: 0 <= i < |log| ==> Vouched(log[i])
    }

    /** Nothing runs past a report that cannot execute. What runs is the sanitized text
        with the caller's own tenant, and it is logged whether it fails or not. With the
        validator's own reports, only texts that pass the validator reach the log. */
    method Execute(report: Report, tenant: string, queryId: string) returns (outcome: Outcome)
      modifies this
      ensures outcome.TenantFilterMissing? <==>
              !report.hasTenantFilter || (report.CanExecute() && driver(report.sanitizedSql, tenant).TenantError?)
      ensures outcome.Refused? <==> report.hasTenantFilter && !report.isValid
      ensures outcome.Refused? ==> outcome.errors == report.errors
      ensures !outcome.Executed? ==> log == old(log)
      ensures outcome.Executed? ==>
                var r := outcome.result;
                var ran := driver(report.sanitizedSql, tenant);
                && r.sql == report.sanitizedSql && r.tenant == tenant && r.rowCount == |r.rows|
                && (ran.Rows? ==> r.rows == ran.rows && r.error == None)
                && (ran.DriverError? ==> r.rows == [] && r.error == Some(ran.message))
                && (r.rows == [] ==> r.columns == {}) && (r.rows != [] ==> r.columns == r.rows[0].Keys)
                && log == old(log) + [LogEntry(queryId, report.rawSql, r.sql, tenant, r.rowCount, r.error)]
      ensures old(AllVouched()) && report == ReportOf(report.rawSql) ==> AllVouched()
    {
      hide ReportOf, Vouched;
      if !report.hasTenantFilter {
        return TenantFilterMissing;
      }
      if !report.CanExecute() {
        return Refused(report.errors);
      }
      outcome := Run(report, tenant, queryId);
      if report == ReportOf(report.rawSql) && outcome.Executed? {
        RunIsVouched(report, log[|log| - 1]);
        assert forall i :: 0 <= i < |log| - 1 ==> log[i] == old(log)[i];
      }
    }

    /** `_run`. */
    method Run(report: Report, tenant: string, queryId: string) returns (outcome: Outcome)
      modifies this
      ensures var ran := driver(report.sanitizedSql, tenant);
              && (outcome.TenantFilterMissing? <==> ran.TenantError?) && !outcome.Refused?
              && (ran.TenantError? ==> log == old(log))
              && (outcome.Executed? ==>
                    var rows := if ran.Rows? then ran.rows else [];
                    var error := if ran.DriverError? then Some(ran.message) else None;
                    && outcome.result == ExecutionResult(queryId, report.sanitizedSql, tenant, rows, |rows|,
                                                         if rows == [] then {} else rows[0].Keys, error)
                    && log == old(log) + [LogEntry(queryId, report.rawSql, report.sanitizedSql, tenant, |rows|, error)])
    {
      var result;
      match driver(report.sanitizedSql, tenant) {
        case TenantError =>
          return TenantFilterMissing;
        case Rows(rows) =>
          var columns := if rows == [] then {} else rows[0].Keys;
          result := ExecutionResult(queryId, report.sanitizedSql, tenant, rows, |rows|, columns, None);
        case DriverError(message) =>
          result := ExecutionResult(queryId, report.sanitizedSql, tenant, [], 0, {}, Some(message));
      }
      log := log + [LogEntry(queryId, report.rawSql, report.sanitizedSql, tenant, result.rowCount, result.error)];
      outcome := Executed(result);
    }
  }

  lemma RunIsVouched(report: Report, e: LogEntry)
    ensures && report == ReportOf(report.rawSql) && report.CanExecute()
            && e.nlQuery == report.rawSql && e.sql == report.sanitizedSql
            ==> Vouched(e)
  {
    ExecutedTextPasses(report.rawSql);
    hide Errors, Warnings, Sanitize, Found, MatchesAt;
  }
}
