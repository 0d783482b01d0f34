/** The `updateData` server action: an authentication gate outside the `try`,
    then a lookup and a single-row write inside it, whose errors (including its
    own "not found") the `catch` replaces with one generic message. */
module UpdateDash {
  import opened Records
  import opened GetValueAction

  /** The action's argument `{ id, value }`. */
  datatype UpdateRequest = UpdateRequest(id: string, value: string)

  /** What the store itself throws when asked to update a key it does not hold. */
  const RecordToUpdateNotFound: string := "Record to update not found."

  /** The row with primary key `id`, if there is one. */
  function Lookup(rows: seq<Row>, id: string): (r: Option<Row>)
    ensures r.None? <==> forall i :: 0 <= i < |rows| ==> rows[i].id != id
    ensures r.Some? ==> r.value in rows && r.value.id == id
  {
    if rows == [] then None
    else if rows[0].id == id then Some(rows[0])
    else Lookup(rows[1..], id)
  }

  /** The table after `value` of the row with key `id` is set to `v`: that row keeps its
      id, name and other columns, every other row is left as it was. */
  function SetValue(rows: seq<Row>, id: string, v: string): (r: seq<Row>)
    ensures |r| == |rows|
    ensures forall i :: 0 <= i < |rows| && rows[i].id != id ==> r[i] == rows[i]
    ensures forall i :: 0 <= i < |rows| && rows[i].id == id ==> r[i] == rows[i].(value := v)
  {
    if rows == [] then []
    else [if rows[0].id == id then rows[0].(value := v) else rows[0]] + SetValue(rows[1..], id, v)
  }

  /** The metric table, updated in place by the action. */
  class Store {
    var rows: seq<Row>

    predicate Valid()
      reads this
    {
      UniqueIds(rows)
    }

    constructor (initial: seq<Row>)
      requires UniqueIds(initial)
      ensures Valid() && rows == initial
    {
      rows := initial;
    }

    /** `db.data.findUnique({ where: { id }, select })`; `fault` is the error the store throws, if any. */
    method FindUnique(id: string, fault: Option<string>) returns (r: Result<Option<Record>>)
      ensures fault.Some? ==> r == Err(fault.value)
      ensures fault.None? && Lookup(rows, id).None? ==> r == Ok(None)
      ensures fault.None? && Lookup(rows, id).Some? ==> r == Ok(Some(Project(Lookup(rows, id).value)))
    {
      if fault.Some? {
        return Err(fault.value);
      }
      var found := Lookup(rows, id);
      r := if found.None? then Ok(None) else Ok(Some(Project(found.value)));
    }

    /** `db.data.update({ where: { id }, data: { value }, select })`, which throws when no row
        has the key; `fault` is the error the store throws, if any. */
    method Update(id: string, value: string, fault: Option<string>) returns (r: Result<Record>)
      requires Valid()
      modifies this
      ensures Valid()
      ensures fault.Some? || Lookup(old(rows), id).None? ==> r.Err? && rows == old(rows)
      ensures fault.None? && Lookup(old(rows), id).Some? ==>
        rows == SetValue(old(rows), id, value) && r == Ok(Record(id, Lookup(old(rows), id).value.name, value))
    {
      if fault.Some? {
        return Err(fault.value);
      }
      var found := Lookup(rows, id);
      if found.None? {
        return Err(RecordToUpdateNotFound);
      }
      SetValueKeepsIds(rows, id, value);
      rows := SetValue(rows, id, value);
      r := Ok(Record(id, found.value.name, value));
    }
  }

  /** Writing a value never changes which keys the table holds. */
  lemma SetValueKeepsIds(rows: seq<Row>, id: string, v: string)
    requires UniqueIds(rows)
    ensures UniqueIds(SetValue(rows, id, v))
    ensures forall i :: 0 <= i < |rows| ==> SetValue(rows, id, v)[i].id == rows[i].id
  {
  }

  /** The result of the action on table `rows`; `lookupFault` and `writeFault` are the errors
      the store throws at the lookup and at the write, if it throws. */
  function UpdateOutcome(rows: seq<Row>, session: Option<Session>, req: UpdateRequest,
                         lookupFault: Option<string>, writeFault: Option<string>): (r: Result<Record>)
    ensures !Authenticated(session) ==> r == Err(Unauthenticated)
    ensures Authenticated(session) && (lookupFault.Some? || writeFault.Some?) ==> r == Err(UpdateFailed)
    ensures Authenticated(session) && Lookup(rows, req.id).None? ==> r == Err(UpdateFailed)
    ensures r.Ok? <==> Authenticated(session) && lookupFault.None? && writeFault.None? && Lookup(rows, req.id).Some?
    ensures r.Ok? ==> r.value.id == req.id && r.value.value == req.value && r.value.name == Lookup(rows, req.id).value.name
    ensures r.Err? ==> r.message == Unauthenticated || r.message == UpdateFailed
  {
    if !Authenticated(session) then Err(Unauthenticated)
    else if lookupFault.Some? || Lookup(rows, req.id).None? || writeFault.Some? then Err(UpdateFailed)
    else Ok(Record(req.id, Lookup(rows, req.id).value.name, req.value))
  }

  /** The table after the action: written only when the action succeeds, and then only in the
      `value` column of the row with the requested key; no row is added, removed or renamed. */
  function StoreAfter(rows: seq<Row>, session: Option<Session>, req: UpdateRequest,
                      lookupFault: Option<string>, writeFault: Option<string>): (r: seq<Row>)
    ensures UpdateOutcome(rows, session, req, lookupFault, writeFault).Err? ==> r == rows
    ensures |r| == |rows|
    ensures forall i :: 0 <= i < |rows| ==> r[i].id == rows[i].id && r[i].name == rows[i].name
    ensures forall i :: 0 <= i < |rows| && rows[i].id != req.id ==> r[i] == rows[i]
    ensures UpdateOutcome(rows, session, req, lookupFault, writeFault).Ok? ==>
      forall i :: 0 <= i < |rows| && rows[i].id == req.id ==> r[i].value == req.value
  {
    if UpdateOutcome(rows, session, req, lookupFault, writeFault).Ok? then SetValue(rows, req.id, req.value) else rows
  }

  /** `updateData(data)` against the table `db`. */
  method UpdateData(db: Store, session: Option<Session>, req: UpdateRequest,
                    lookupFault: Option<string>, writeFault: Option<string>) returns (r: Result<Record>)
    requires db.Valid()
    modifies db
    ensures db.Valid()
    ensures r == UpdateOutcome(old(db.rows), session, req, lookupFault, writeFault)
    ensures db.rows == StoreAfter(old(db.rows), session, req, lookupFault, writeFault)
  {
    if !Authenticated(session) {
      return Err(Unauthenticated);
    }
    // the try block
    var outcome: Result<Record>;
    var found := db.FindUnique(req.id, lookupFault);
    if found.Err? {
      outcome := Err(found.message);
    } else if found.value.None? {
      outcome := Err(NotFound);
    } else {
      outcome := db.Update(req.id, req.value, writeFault);
    }
    // the catch block
    if outcome.Err? {
      r := Err(UpdateFailed);
    } else {
      r := outcome;
    }
  }

  /** An unknown id is reported with the generic message, not "not found", and nothing is written. */
  lemma UnknownIdIsMasked(rows: seq<Row>, session: Option<Session>, req: UpdateRequest)
    requires Authenticated(session)
    requires forall i :: 0 <= i < |rows| ==> rows[i].id != req.id
    ensures UpdateOutcome(rows, session, req, None, None) == Err(UpdateFailed)
    ensures UpdateOutcome(rows, session, req, None, None) != Err(NotFound)
    ensures StoreAfter(rows, session, req, None, None) == rows
  {
  }

  /** Writing the same value twice leaves the table as writing it once. */
  lemma {:induction false} SetValueIdempotent(rows: seq<Row>, id: string, v: string)
    ensures SetValue(SetValue(rows, id, v), id, v) == SetValue(rows, id, v)
  {
    if rows != [] {
      SetValueIdempotent(rows[1..], id, v);
    }
  }

  /** Once an update has succeeded, repeating it (whatever the store does the second time)
      leaves the same table. */
  lemma UpdateIdempotent(rows: seq<Row>, session: Option<Session>, req: UpdateRequest,
                         lookupFault: Option<string>, writeFault: Option<string>)
    requires UpdateOutcome(rows, session, req, None, None).Ok?
    ensures StoreAfter(StoreAfter(rows, session, req, None, None), session, req, lookupFault, writeFault)
         == StoreAfter(rows, session, req, None, None)
  {
    SetValueIdempotent(rows, req.id, req.value);
  }

  /** After a successful update, fetching the record's name returns it with the new value,
      and no record under that name still carries the id with another value. */
  lemma UpdateVisibleToGetValue(rows: seq<Row>, session: Option<Session>, req: UpdateRequest)
    requires UniqueIds(rows)
    requires UpdateOutcome(rows, session, req, None, None).Ok?
    ensures var updated := UpdateOutcome(rows, session, req, None, None).value;
            var fetched := GetValue(StoreAfter(rows, session, req, None, None), updated.name, None);
            fetched.Ok? && updated in fetched.value
            && forall x :: x in fetched.value && x.id == req.id ==> x.value == req.value
  {
    var after := SetValue(rows, req.id, req.value);
    var row := Lookup(rows, req.id).value;
    var k :| 0 <= k < |rows| && rows[k] == row;
    assert after[k] == row.(value := req.value);
    assert Project(after[k]) in Matching(after, row.name);
    MatchingOrigin(after, row.name);
    forall x | x in Matching(after, row.name) && x.id == req.id
      ensures x.value == req.value
    {
      var i :| 0 <= i < |after| && Project(after[i]) == x;
    }
  }
}
