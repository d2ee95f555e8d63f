/**
 * The interventions routes over the `Actions_Log` table: resolving a department identifier, the
 * update expression of a status/outcome patch, and the filtered, sorted, paginated listing.
 */
module ActionsLog {
  import opened Wrappers
  import PyText
  import Sorting
  import Stats
  import opened Frames

  // ---------------------------------------------------------------- department name

  /** A `Departments` item with both id and name rendered by `astype(str)`. */
  datatype DepartmentRow = DepartmentRow(id: string, name: string)

  /** The `Departments` table as a frame: its rows and whether the two columns exist. */
  datatype DepartmentsFrame = DepartmentsFrame(rows: seq<DepartmentRow>, hasIdColumn: bool, hasNameColumn: bool)

  /** The index of the first row whose id matches `ident` case-insensitively. */
  function FirstIdMatch(rows: seq<DepartmentRow>, ident: string): (r: Option<nat>)
    ensures r.Some? ==> r.value < |rows| && PyText.Lower(rows[r.value].id) == PyText.Lower(ident)
    ensures r.Some? ==> forall j :: 0 <= j < r.value ==> PyText.Lower(rows[j].id) != PyText.Lower(ident)
    ensures r.None? <==> forall j :: 0 <= j < |rows| ==> PyText.Lower(rows[j].id) != PyText.Lower(ident)
  {
    if rows == [] then None
    else if PyText.Lower(rows[0].id) == PyText.Lower(ident) then Some(0)
    else
      var rest := FirstIdMatch(rows[1..], ident);
      if rest.Some? then Some(rest.value + 1) else None
  }

  /** The index of the first row whose name matches `ident` case-insensitively. */
  function FirstNameMatch(rows: seq<DepartmentRow>, ident: string): (r: Option<nat>)
    ensures r.Some? ==> r.value < |rows| && PyText.Lower(rows[r.value].name) == PyText.Lower(ident)
    ensures r.Some? ==> forall j :: 0 <= j < r.value ==> PyText.Lower(rows[j].name) != PyText.Lower(ident)
    ensures r.None? <==> forall j :: 0 <= j < |rows| ==> PyText.Lower(rows[j].name) != PyText.Lower(ident)
  {
    if rows == [] then None
    else if PyText.Lower(rows[0].name) == PyText.Lower(ident) then Some(0)
    else
      var rest := FirstNameMatch(rows[1..], ident);
      if rest.Some? then Some(rest.value + 1) else None
  }

  /** `get_department_name`: `table` is None when reading the table fails. */
  function DepartmentName(table: Option<DepartmentsFrame>, ident: string): (r: string)
    ensures table.None? || table.value.rows == [] || !table.value.hasIdColumn || !table.value.hasNameColumn ==> r == "Unknown"
  {
    if table.None? then "Unknown"
    else
      var t := table.value;
      if t.rows == [] || !t.hasIdColumn || !t.hasNameColumn then "Unknown"
      else
        var byId := FirstIdMatch(t.rows, ident);
        if byId.Some? then t.rows[byId.value].name
        else
          var byName := FirstNameMatch(t.rows, ident);
          if byName.Some? then t.rows[byName.value].id else ident
  }

  /** An id match gives the name of the first matching row; failing that, a name match gives the
   *  id of the first matching row; failing both, the identifier comes back unchanged. */
  lemma DepartmentNameLookup(t: DepartmentsFrame, ident: string)
    requires t.rows != [] && t.hasIdColumn && t.hasNameColumn
    ensures forall i :: (0 <= i < |t.rows| && PyText.Lower(t.rows[i].id) == PyText.Lower(ident)
      && forall j :: 0 <= j < i ==> PyText.Lower(t.rows[j].id) != PyText.Lower(ident)) ==>
      DepartmentName(Some(t), ident) == t.rows[i].name
    ensures (forall j :: 0 <= j < |t.rows| ==> PyText.Lower(t.rows[j].id) != PyText.Lower(ident)) ==>
      forall i :: (0 <= i < |t.rows| && PyText.Lower(t.rows[i].name) == PyText.Lower(ident)
        && forall j :: 0 <= j < i ==> PyText.Lower(t.rows[j].name) != PyText.Lower(ident)) ==>
        DepartmentName(Some(t), ident) == t.rows[i].id
    ensures (forall j :: 0 <= j < |t.rows| ==>
               PyText.Lower(t.rows[j].id) != PyText.Lower(ident) && PyText.Lower(t.rows[j].name) != PyText.Lower(ident)) ==>
      DepartmentName(Some(t), ident) == ident
  {
    var byId := FirstIdMatch(t.rows, ident);
    if byId.Some? {
      forall i | 0 <= i < |t.rows| && PyText.Lower(t.rows[i].id) == PyText.Lower(ident)
        && (forall j :: 0 <= j < i ==> PyText.Lower(t.rows[j].id) != PyText.Lower(ident))
        ensures i == byId.value
      {
        if i < byId.value { assert false; }
      }
    }
    var byName := FirstNameMatch(t.rows, ident);
    if byId.None? && byName.Some? {
      forall i | 0 <= i < |t.rows| && PyText.Lower(t.rows[i].name) == PyText.Lower(ident)
        && (forall j :: 0 <= j < i ==> PyText.Lower(t.rows[j].name) != PyText.Lower(ident))
        ensures i == byName.value
      {
        if i < byName.value { assert false; }
      }
    }
  }

  // ---------------------------------------------------------------- update expression

  const UpdateTimeClause := "SET Update_at = :ua"
  const StatusClause := ", Activity_status = :s"
  const OutcomeClause := ", Outcome = :o"

  /** The expression text `update_intervention` builds. */
  function UpdateExpression(status: Option<string>, outcome: Option<string>): string
  {
    UpdateTimeClause + (if PyText.Truthy(status) then StatusClause else "")
      + (if PyText.Truthy(outcome) then OutcomeClause else "")
  }

  /** The expression attribute values `update_intervention` builds. */
  function UpdateValues(updatedAt: string, status: Option<string>, outcome: Option<string>): (v: map<string, string>)
    ensures v.Keys == {":ua"} + (if PyText.Truthy(status) then {":s"} else {}) + (if PyText.Truthy(outcome) then {":o"} else {})
    ensures v[":ua"] == updatedAt
    ensures PyText.Truthy(status) ==> v[":s"] == status.value
    ensures PyText.Truthy(outcome) ==> v[":o"] == outcome.value
  {
    var v := map[":ua" := updatedAt];
    var v := if PyText.Truthy(status) then v[":s" := status.value] else v;
    if PyText.Truthy(outcome) then v[":o" := outcome.value] else v
  }

  /** The expression always starts with the update time, ends with the outcome clause exactly when
   *  an outcome is given, and its text tells which of the two optional clauses it holds. */
  lemma UpdateExpressionClauses(status: Option<string>, outcome: Option<string>)
    ensures PyText.StartsWith(UpdateExpression(status, outcome), UpdateTimeClause)
    ensures PyText.EndsWith(UpdateExpression(status, outcome), OutcomeClause) <==> PyText.Truthy(outcome)
    ensures |UpdateExpression(status, outcome)| ==
      |UpdateTimeClause| + (if PyText.Truthy(status) then |StatusClause| else 0) + (if PyText.Truthy(outcome) then |OutcomeClause| else 0)
  {
    var e := UpdateExpression(status, outcome);
    var rest := (if PyText.Truthy(status) then StatusClause else "") + (if PyText.Truthy(outcome) then OutcomeClause else "");
    assert e == UpdateTimeClause + rest;
    assert e[..|UpdateTimeClause|] == UpdateTimeClause;
    if !PyText.Truthy(outcome) {
      assert e[|e| - 1] == (if PyText.Truthy(status) then 's' else 'a');
    }
  }

  /** The text of the expression determines which clauses it holds: two patches that build the same
   *  text set the same attributes. */
  lemma UpdateExpressionInjective(s1: Option<string>, o1: Option<string>, s2: Option<string>, o2: Option<string>)
    requires UpdateExpression(s1, o1) == UpdateExpression(s2, o2)
    ensures PyText.Truthy(s1) == PyText.Truthy(s2) && PyText.Truthy(o1) == PyText.Truthy(o2)
  {
    UpdateExpressionClauses(s1, o1);
    UpdateExpressionClauses(s2, o2);
  }

  /** The update-expression building of `update_intervention`, extending the string clause by
   *  clause. */
  method BuildUpdate(updatedAt: string, status: Option<string>, outcome: Option<string>)
    returns (expression: string, values: map<string, string>)
    ensures expression == UpdateExpression(status, outcome) && values == UpdateValues(updatedAt, status, outcome)
  {
    expression := "SET Update_at = :ua";
    values := map[":ua" := updatedAt];
    if PyText.Truthy(status) {
      expression := expression + ", Activity_status = :s";
      values := values[":s" := status.value];
    }
    if PyText.Truthy(outcome) {
      expression := expression + ", Outcome = :o";
      values := values[":o" := outcome.value];
    }
  }

  // ---------------------------------------------------------------- update response

  datatype PatchData = PatchData(id: Option<string>, departmentName: string, action: Option<string>,
                                 date: Option<string>, status: Option<string>, outcome: Option<string>,
                                 updatedAt: Option<string>)

  function Attr(item: Item, name: string): Option<string>
  {
    if name in item then Some(item[name]) else None
  }

  /** The response built from the `ALL_NEW` attributes of an update: it has every field the
   *  response model declares as `str` exactly when the item has the five attributes behind them
   *  (the department name is always a string). */
  function PatchDataOf(item: Item, departments: Option<DepartmentsFrame>): (r: PatchData)
    ensures Complete(r) <==> forall name :: name in RequiredAttributes ==> name in item
    ensures r.id == Attr(item, "Action_ID") && r.outcome == Attr(item, "Outcome")
  {
    PatchData(Attr(item, "Action_ID"), DepartmentName(departments, Attr(item, "Department").GetOr("")),
              Attr(item, "Activity_title"), Attr(item, "createdAt"), Attr(item, "Activity_status"),
              Attr(item, "Outcome"), Attr(item, "Update_at"))
  }

  /** The attributes behind the `str` fields of `PatchInterventionResponseData`. */
  const RequiredAttributes: set<string> := {"Action_ID", "Activity_title", "createdAt", "Activity_status", "Update_at"}

  /** The fields `PatchInterventionResponseData` declares as `str` are all present; only the
   *  outcome is optional. */
  predicate Complete(d: PatchData)
  {
    d.id.Some? && d.action.Some? && d.date.Some? && d.status.Some? && d.updatedAt.Some?
  }

  /** The check of the returned body against `response_model`: an incomplete body fails after
   *  the handler has returned, outside its `try`, and is answered with a plain 500. */
  function Validated(d: PatchData): (r: Result<PatchData>)
    ensures r.Ok? <==> Complete(d)
    ensures r.Ok? ==> r.value == d
    ensures r.Err? ==> r.error.status == 500
  {
    if Complete(d) then Ok(d) else Err(HttpError(500, "Internal Server Error"))
  }

  /** The `ALL_NEW` attributes of the update: the stored item (or, for an unknown id, a new item
   *  holding only the key) with the clauses of the expression set. */
  function UpsertedAttributes(id: string, stored: Option<Item>, updatedAt: string, status: Option<string>,
                              outcome: Option<string>): (r: Item)
    ensures "Action_ID" in r && "Update_at" in r && r["Update_at"] == updatedAt
    ensures stored.None? ==> r.Keys == {"Action_ID", "Update_at"} + (if PyText.Truthy(status) then {"Activity_status"} else {})
                                        + (if PyText.Truthy(outcome) then {"Outcome"} else {})
    ensures stored.Some? ==> forall name :: name in stored.value ==> name in r
  {
    var item := (if stored.Some? then stored.value else map[])["Action_ID" := id];
    var item := item["Update_at" := updatedAt];
    var item := if PyText.Truthy(status) then item["Activity_status" := status.value] else item;
    if PyText.Truthy(outcome) then item["Outcome" := outcome.value] else item
  }

  /** The response of `update_intervention` as written. `attributes` is the outcome of the update
   *  call: `Raised` with the client error's text, or the reply's `Attributes` (None when it has
   *  none). The 404 raised for a missing item is itself caught by the handler for any exception
   *  and re-raised as a 500 whose detail is the 404's text. */
  function UpdateInterventionAsWritten(attributes: Outcome<Option<Item>>, departments: Option<DepartmentsFrame>): (r: Result<PatchData>)
    ensures r.Err? ==> r.error.status == 500
    ensures attributes.Raised? ==> r == Err(HttpError(500, attributes.message))
  {
    if attributes.Raised? then Err(HttpError(500, attributes.message))
    else if attributes.value.None? || attributes.value.value == map[] then Err(HttpError(500, "404: Intervention not found"))
    else Validated(PatchDataOf(attributes.value.value, departments))
  }

  /** The response of `update_intervention` with the 404 passed through: a 404 exactly when the
   *  reply has no attributes, the client error's text as a 500, and otherwise the validated
   *  body, which succeeds exactly when the item has every required attribute. */
  function UpdateIntervention(attributes: Outcome<Option<Item>>, departments: Option<DepartmentsFrame>): (r: Result<PatchData>)
    ensures r.Err? && r.error.status == 404 <==> attributes.Done? && (attributes.value.None? || attributes.value.value == map[])
    ensures attributes.Raised? ==> r == Err(HttpError(500, attributes.message))
    ensures attributes.Done? && attributes.value.Some? && attributes.value.value != map[] ==>
      (r.Ok? <==> forall name :: name in RequiredAttributes ==> name in attributes.value.value)
    ensures r.Ok? ==>
      Complete(r.value) && r.value.id == Attr(attributes.value.value, "Action_ID")
      && r.value.outcome == Attr(attributes.value.value, "Outcome")
  {
    if attributes.Raised? then Err(HttpError(500, attributes.message))
    else if attributes.value.None? || attributes.value.value == map[] then Err(HttpError(404, "Intervention not found"))
    else Validated(PatchDataOf(attributes.value.value, departments))
  }

  /** As written, a missing item never gets a 404. */
  lemma UpdateAsWrittenNever404(departments: Option<DepartmentsFrame>)
    ensures UpdateInterventionAsWritten(Done(None), departments) == Err(HttpError(500, "404: Intervention not found"))
    ensures UpdateIntervention(Done(None), departments) == Err(HttpError(404, "Intervention not found"))
  {
  }

  /** The update of an unknown id creates an item holding only the key and the set clauses, so
   *  it is answered with a 500 both as written and with the 404 passed through; the reply of an
   *  update always has attributes, so neither answers 404. */
  lemma {:induction false} UnknownIdIs500(id: string, updatedAt: string, status: Option<string>, outcome: Option<string>,
                                          departments: Option<DepartmentsFrame>)
    ensures var item := UpsertedAttributes(id, None, updatedAt, status, outcome);
      UpdateIntervention(Done(Some(item)), departments) == Err(HttpError(500, "Internal Server Error"))
      && UpdateInterventionAsWritten(Done(Some(item)), departments) == Err(HttpError(500, "Internal Server Error"))
  {
    var item := UpsertedAttributes(id, None, updatedAt, status, outcome);
    assert "Action_ID" in item;
    assert "Activity_title" in RequiredAttributes && "Activity_title" !in item;
  }

  /** Updating a stored item that has every required attribute answers its fields. */
  lemma StoredItemAnswered(id: string, stored: Item, updatedAt: string, status: Option<string>, outcome: Option<string>,
                           departments: Option<DepartmentsFrame>)
    requires forall name :: name in RequiredAttributes ==> name in stored
    ensures var item := UpsertedAttributes(id, Some(stored), updatedAt, status, outcome);
      var r := UpdateIntervention(Done(Some(item)), departments);
      r.Ok? && r == UpdateInterventionAsWritten(Done(Some(item)), departments)
      && r.value.updatedAt == Some(updatedAt)
  {
    var item := UpsertedAttributes(id, Some(stored), updatedAt, status, outcome);
    assert "Action_ID" in item;
  }

  // ---------------------------------------------------------------- listing

  datatype ListQuery = ListQuery(status: Option<string>, department: Option<string>,
                                 startDate: Option<string>, endDate: Option<string>, limit: int, offset: int)

  datatype ListItem = ListItem(actionId: string, department: string, action: string, date: string, status: string,
                               outcome: Option<string>, createdBy: string, createdAt: string, updatedAt: string)

  datatype ListPage = ListPage(data: seq<ListItem>, total: nat, limit: int, offset: int)

  function ItemOf(columns: set<string>, row: Item): (r: ListItem)
    ensures r.outcome.None? <==> "Outcome" !in columns || "Outcome" !in row
    ensures "Department" !in columns ==> r.department == "Unknown"
    ensures "Activity_status" !in columns ==> r.status == "planned"
  {
    ListItem(GetStr(columns, row, "Action_ID", ""), GetStr(columns, row, "Department", "Unknown"),
             GetStr(columns, row, "Activity_title", ""), GetStr(columns, row, "createdAt", ""),
             GetStr(columns, row, "Activity_status", "planned"),
             if "Outcome" in columns && "Outcome" in row then Some(row["Outcome"]) else None,
             GetStr(columns, row, "createdBy", "System"), GetStr(columns, row, "createdAt", ""),
             GetStr(columns, row, "Update_at", ""))
  }

  /** The department column of the filter: `Department_ID` when the frame has one. */
  function DepartmentColumn(columns: set<string>): string
  {
    if "Department_ID" in columns then "Department_ID" else "Department"
  }

  /** The creation time of a row, None for NaT; `parse` stands for `pd.to_datetime(errors='coerce')`. */
  function CreatedAt(parse: string -> Option<int>, row: Item): Option<int>
  {
    if "createdAt" in row then parse(row["createdAt"]) else None
  }

  /** The filters of a query on one row. */
  predicate Matches(columns: set<string>, parse: string -> Option<int>, q: ListQuery,
                    start: Option<int>, end: Option<int>, row: Item)
  {
    (PyText.Truthy(q.status) ==> PyText.Lower(AsStr(row, "Activity_status")) == PyText.Lower(q.status.value))
    && (PyText.Truthy(q.department) ==>
          PyText.Lower(AsStr(row, DepartmentColumn(columns))) == PyText.Lower(q.department.value))
    && (start.Some? ==> CreatedAt(parse, row).Some? && CreatedAt(parse, row).value >= start.value)
    && (end.Some? ==> CreatedAt(parse, row).Some? && CreatedAt(parse, row).value <= end.value)
  }

  /** `a` comes before `b` when sorting on the creation time newest first, NaT last. */
  predicate Later(parse: string -> Option<int>, a: Item, b: Item)
  {
    match (CreatedAt(parse, a), CreatedAt(parse, b))
    case (Some(x), Some(y)) => x > y
    case (Some(_), None) => true
    case _ => false
  }

  function LaterOrder(parse: string -> Option<int>): (Item, Item) -> bool
  {
    (a: Item, b: Item) => Later(parse, a, b)
  }

  lemma LaterIsStrictOrder(parse: string -> Option<int>)
    ensures Sorting.StrictOrder(LaterOrder(parse))
  {
  }

  /** The bound of a date filter: None when not given, an error when it does not parse. */
  function Bound(parse: string -> Option<int>, d: Option<string>): Result<Option<int>>
  {
    if !PyText.Truthy(d) then Ok(None)
    else if parse(d.value).None? then Err(HttpError(500, "Unknown datetime string format"))
    else Ok(parse(d.value))
  }

  /** The rows the listing pages through, or the error a query raises: a filter on a column the
   *  frame lacks raises `KeyError`, and an unparsable bound raises too; both become a 500. */
  function Selected(t: Frame, parse: string -> Option<int>, q: ListQuery): Result<seq<Item>>
  {
    var start := Bound(parse, q.startDate);
    var end := Bound(parse, q.endDate);
    if PyText.Truthy(q.status) && "Activity_status" !in t.columns then Err(HttpError(500, "'Activity_status'"))
    else if PyText.Truthy(q.department) && DepartmentColumn(t.columns) !in t.columns then Err(HttpError(500, "'Department'"))
    else if (PyText.Truthy(q.startDate) || PyText.Truthy(q.endDate)) && "createdAt" !in t.columns then Err(HttpError(500, "'createdAt'"))
    else if start.Err? then Err(start.error)
    else if end.Err? then Err(end.error)
    else
      var kept := Stats.Filter(t.rows, (row: Item) => Matches(t.columns, parse, q, start.value, end.value, row));
      Ok(if "createdAt" in t.columns then Sorting.SortBy(kept, LaterOrder(parse)) else kept)
  }

  /** `get_interventions`: validation of the paging parameters, the empty table, then the filters,
   *  the sort and the page. */
  function ListInterventions(t: Frame, parse: string -> Option<int>, q: ListQuery): (r: Result<ListPage>)
    ensures (r.Err? && r.error.status == 422) <==> !(1 <= q.limit <= 100 && q.offset >= 0)
    ensures r.Ok? ==> |r.value.data| <= q.limit && r.value.limit == q.limit && r.value.offset == q.offset
    ensures r.Ok? && t.rows == [] ==> r.value.data == [] && r.value.total == 0
  {
    if !(1 <= q.limit <= 100 && q.offset >= 0) then Err(HttpError(422, "Unprocessable Entity"))
    else if t.rows == [] then Ok(ListPage([], 0, q.limit, q.offset))
    else
      var sel := Selected(t, parse, q);
      if sel.Err? then Err(sel.error)
      else
        var page := PyText.Slice(sel.value, q.offset, q.offset + q.limit);
        Ok(ListPage(seq(|page|, i requires 0 <= i < |page| => ItemOf(t.columns, page[i])), |sel.value|, q.limit, q.offset))
  }

  /** The selected rows are exactly the table's rows that pass every filter (the bounds inclusive),
   *  in newest-first order when the frame has a `createdAt` column. */
  lemma SelectedRows(t: Frame, parse: string -> Option<int>, q: ListQuery)
    requires Selected(t, parse, q).Ok?
    ensures var rows := Selected(t, parse, q).value;
      var start := Bound(parse, q.startDate).value; var end := Bound(parse, q.endDate).value;
      multiset(rows) == multiset(Stats.Filter(t.rows, (row: Item) => Matches(t.columns, parse, q, start, end, row)))
      && (forall row :: row in rows <==> row in t.rows && Matches(t.columns, parse, q, start, end, row))
      && ("createdAt" in t.columns ==> Sorting.SortedBy(rows, LaterOrder(parse)))
  {
    var start := Bound(parse, q.startDate).value;
    var end := Bound(parse, q.endDate).value;
    var p := (row: Item) => Matches(t.columns, parse, q, start, end, row);
    var kept := Stats.Filter(t.rows, p);
    Stats.FilterMembers(t.rows, p);
    Sorting.SortByPermutes(kept, LaterOrder(parse));
    LaterIsStrictOrder(parse);
    Sorting.SortBySorted(kept, LaterOrder(parse));
    var rows := Selected(t, parse, q).value;
    forall row ensures row in rows <==> row in kept {
      assert row in rows <==> row in multiset(rows);
      assert row in kept <==> row in multiset(kept);
    }
  }

  /** The total counts every selected row, and the page is the window `[offset, offset+limit)` of
   *  them, each rendered with the column defaults. */
  lemma ListPaging(t: Frame, parse: string -> Option<int>, q: ListQuery)
    requires 1 <= q.limit <= 100 && q.offset >= 0 && t.rows != [] && Selected(t, parse, q).Ok?
    ensures var r := ListInterventions(t, parse, q); var rows := Selected(t, parse, q).value;
      r.Ok? && r.value.total == |rows| && |r.value.data| <= q.limit
      && (q.offset + q.limit <= |rows| ==>
            |r.value.data| == q.limit && forall i :: 0 <= i < q.limit ==> r.value.data[i] == ItemOf(t.columns, rows[q.offset + i]))
      && (q.offset >= |rows| ==> r.value.data == [])
  {
  }

  /** An empty table lists nothing, whatever the filters. */
  lemma ListEmptyTable(columns: set<string>, parse: string -> Option<int>, q: ListQuery)
    requires 1 <= q.limit <= 100 && q.offset >= 0
    ensures ListInterventions(Frame(columns, []), parse, q) == Ok(ListPage([], 0, q.limit, q.offset))
  {
  }

  /** The response loop of `get_interventions`. */
  method BuildItems(columns: set<string>, page: seq<Item>) returns (data: seq<ListItem>)
    ensures |data| == |page|
    ensures forall i :: 0 <= i < |page| ==> data[i] == ItemOf(columns, page[i])
  {
    data := [];
    for i := 0 to |page|
      invariant |data| == i
      invariant forall k :: 0 <= k < i ==> data[k] == ItemOf(columns, page[k])
    {
      data := data + [ItemOf(columns, page[i])];
    }
  }

  /** `get_interventions`, building the response items in a loop. */
  method GetInterventions(t: Frame, parse: string -> Option<int>, q: ListQuery) returns (r: Result<ListPage>)
    ensures r == ListInterventions(t, parse, q)
  {
    if !(1 <= q.limit <= 100 && q.offset >= 0) {
      return Err(HttpError(422, "Unprocessable Entity"));
    }
    if t.rows == [] {
      return Ok(ListPage([], 0, q.limit, q.offset));
    }
    var sel := Selected(t, parse, q);
    if sel.Err? {
      return Err(sel.error);
    }
    var page := PyText.Slice(sel.value, q.offset, q.offset + q.limit);
    var data := BuildItems(t.columns, page);
    assert data == seq(|page|, i requires 0 <= i < |page| => ItemOf(t.columns, page[i]));
    return Ok(ListPage(data, |sel.value|, q.limit, q.offset));
  }
}
