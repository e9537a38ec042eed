/** The violation record and its construction from one split CSV row (main.go). */
module Violations {
  import opened Wrappers

  /** A point in time. Go's `time.Time` is totally ordered by `Before`; here it is an integer. */
  type Date = int

  /** Go's zero `time.Time{}`, which is also what a failed `time.Parse` returns. */
  const ZeroDate: Date := 0

  /** `t.Before(u)` on `time.Time`: strictly earlier. */
  predicate Before(t: Date, u: Date) {
    t < u
  }

  datatype Violation = Violation(
    id: int,
    inspectionId: int,
    enteredDate: Date,
    closedDate: Date,
    violationType: string)

  /** Index of each field in a row of the violations file. */
  const IdField := 0
  const InspectionIdField := 1
  const CategoryField := 2
  const EnteredDateField := 3
  const ClosedDateField := 4
  const ViolationTypeField := 5

  /**
   * Builds a violation from the fields of one row. `parseDate` stands for
   * `time.Parse` with the layout "2006-01-02 00:00:00" and `atoi` for
   * `strconv.Atoi`; `None` is a parse error, which the source discards,
   * keeping the zero value. An empty close-date field also gives the zero date.
   * The source indexes the row up to field 5 unchecked.
   */
  function NewViolation(values: seq<string>, parseDate: string -> Option<Date>, atoi: string -> Option<int>): Violation
    requires |values| > ViolationTypeField
  {
    var startDate := parseDate(values[EnteredDateField]).GetOr(ZeroDate);
    var closeDate := if values[ClosedDateField] != "" then parseDate(values[ClosedDateField]).GetOr(ZeroDate) else ZeroDate;
    var id := atoi(values[IdField]).GetOr(0);
    var inspectionId := atoi(values[InspectionIdField]).GetOr(0);
    Violation(id, inspectionId, startDate, closeDate, values[ViolationTypeField])
  }

  /**
   * Where each field of the record comes from: fields 0 and 1 through
   * `atoi`, fields 3 and 4 through `parseDate`, field 5 verbatim, with the
   * zero value wherever a parse fails and the zero date for an empty field 4.
   */
  lemma NewViolationFields(values: seq<string>, parseDate: string -> Option<Date>, atoi: string -> Option<int>)
    requires |values| > ViolationTypeField
    ensures var v := NewViolation(values, parseDate, atoi);
            && (atoi(values[IdField]).Some? ==> v.id == atoi(values[IdField]).value)
            && (atoi(values[IdField]).None? ==> v.id == 0)
            && (atoi(values[InspectionIdField]).Some? ==> v.inspectionId == atoi(values[InspectionIdField]).value)
            && (atoi(values[InspectionIdField]).None? ==> v.inspectionId == 0)
            && (parseDate(values[EnteredDateField]).Some? ==> v.enteredDate == parseDate(values[EnteredDateField]).value)
            && (parseDate(values[EnteredDateField]).None? ==> v.enteredDate == ZeroDate)
            && (values[ClosedDateField] == "" ==> v.closedDate == ZeroDate)
            && (values[ClosedDateField] != "" && parseDate(values[ClosedDateField]).Some? ==>
                  v.closedDate == parseDate(values[ClosedDateField]).value)
            && (values[ClosedDateField] != "" && parseDate(values[ClosedDateField]).None? ==>
                  v.closedDate == ZeroDate)
            && v.violationType == values[ViolationTypeField]
  {
  }

  /**
   * The record depends on fields 0, 1, 3, 4 and 5 only: the category in
   * field 2 and any fields after the sixth do not reach it.
   */
  lemma NewViolationPositional(a: seq<string>, b: seq<string>, parseDate: string -> Option<Date>, atoi: string -> Option<int>)
    requires |a| > ViolationTypeField && |b| > ViolationTypeField
    requires a[IdField] == b[IdField] && a[InspectionIdField] == b[InspectionIdField]
    requires a[EnteredDateField] == b[EnteredDateField] && a[ClosedDateField] == b[ClosedDateField]
    requires a[ViolationTypeField] == b[ViolationTypeField]
    ensures NewViolation(a, parseDate, atoi) == NewViolation(b, parseDate, atoi)
  {
  }
}
