/** The `GetValue` server action: every record with a given name, projected to
    `{ id, name, value }`, with any store fault replaced by a fixed message. */
module GetValueAction {
  import opened Records

  /** The `findMany({ where: { name } })` query: the matching rows, projected, in store order. */
  function Matching(rows: seq<Row>, name: string): (r: seq<Record>)
    ensures |r| <= |rows|
    ensures forall x :: x in r ==> x.name == name
    ensures forall i :: 0 <= i < |rows| && rows[i].name == name ==> Project(rows[i]) in r
    ensures r == [] <==> forall i :: 0 <= i < |rows| ==> rows[i].name != name
  {
    if rows == [] then []
    else (if rows[0].name == name then [Project(rows[0])] else []) + Matching(rows[1..], name)
  }

  /** Every record the query returns is the projection of a stored row. */
  lemma {:induction false} MatchingOrigin(rows: seq<Row>, name: string)
    ensures forall x :: x in Matching(rows, name) ==> exists i :: 0 <= i < |rows| && Project(rows[i]) == x
  {
    if rows != [] {
      MatchingOrigin(rows[1..], name);
      forall x | x in Matching(rows, name)
        ensures exists i :: 0 <= i < |rows| && Project(rows[i]) == x
      {
        if x != Project(rows[0]) {
          assert x in Matching(rows[1..], name);
          var i :| 0 <= i < |rows[1..]| && Project(rows[1..][i]) == x;
          assert Project(rows[i + 1]) == x;
        }
      }
    }
  }

  /** The query keeps the store's order: matches in an earlier part of the table come first. */
  lemma {:induction false} MatchingAppend(a: seq<Row>, b: seq<Row>, name: string)
    ensures Matching(a + b, name) == Matching(a, name) + Matching(b, name)
  {
    if a == [] {
      assert a + b == b;
    } else {
      assert (a + b)[1..] == a[1..] + b;
      MatchingAppend(a[1..], b, name);
    }
  }

  /** The first record the query returns is the first row carrying the name. */
  lemma {:induction false} FirstMatch(rows: seq<Row>, name: string, k: nat)
    requires k < |rows| && rows[k].name == name
    requires forall j :: 0 <= j < k ==> rows[j].name != name
    ensures Matching(rows, name) != [] && Matching(rows, name)[0] == Project(rows[k])
  {
    if k > 0 {
      FirstMatch(rows[1..], name, k - 1);
    }
  }

  /** `GetValue(name)`; `fault` is the error the store throws, if it throws. */
  function GetValue(rows: seq<Row>, name: string, fault: Option<string>): (r: Result<seq<Record>>)
    ensures r.Err? <==> fault.Some?
    ensures r.Err? ==> r.message == FetchFailed
    ensures r.Ok? ==> forall x :: x in r.value ==> x.name == name
    ensures r.Ok? ==> forall i :: 0 <= i < |rows| && rows[i].name == name ==> Project(rows[i]) in r.value
    ensures r.Ok? ==> (r.value == [] <==> forall i :: 0 <= i < |rows| ==> rows[i].name != name)
  {
    if fault.Some? then Err(FetchFailed) else Ok(Matching(rows, name))
  }
}
