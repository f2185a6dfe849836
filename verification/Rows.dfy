/** Choosing among rows whose order the database leaves open. */
module Rows {

  ghost function Pick<T>(rows: set<T>): (row: T)
    requires rows != {}
    ensures row in rows
  {
    var row :| row in rows;
    row
  }

  /** A row of a statement's result, in whatever order it comes. */
  method AnyOf<T(==)>(rows: set<T>) returns (row: T)
    requires rows != {}
    ensures row in rows
  {
    row :| row in rows;
  }
}
