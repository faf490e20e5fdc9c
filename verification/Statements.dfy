/** The statement kinds of the SQL classifier. */
module Statements {

  datatype Kind =
    | Empty | Read | Write | DDL | Begin | Commit | Rollback | Savepoint
    | AutocommitOn | AutocommitOff | SetNames | UseDatabase | WarningCount
    | Unsupported
    | Unrecognized   // any kind string outside the list above

  datatype Statement = Statement(kind: Kind, sql: string)
}
