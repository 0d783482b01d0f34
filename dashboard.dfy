/** The `Dashboard` view: the fetch of nine named metrics on mount, the split of the
    records into gauge cards and numeric cards, the label each gauge gets, which card
    shows the editor, and the edit state driven by Edit, Save and Cancel. */
module Dashboard {
  import opened Records
  import opened Decimal
  import opened Gauge
  import opened GetValueAction
  import opened UpdateDash

  /** The names rendered as radial gauges, fetched first. */
  const GaugeNames: seq<string> := ["Fechados Total", "Fechados Mês", "Fechados Dia"]

  /** The names rendered as numeric cards, fetched after the gauges. */
  const NumericNames: seq<string> := [
    "Colher Assinados", "Aguardando prontuário", "Em distribuição HRCA",
    "Em análise", "Com pendência", "Pagos HRCA"]

  /** The nine names fetched on mount, in order. */
  const Titles: seq<string> := GaugeNames + NumericNames

  predicate IsGaugeName(name: string)
  {
    name in GaugeNames
  }

  predicate RecordIdsUnique(data: seq<Record>)
  {
    forall i, j :: 0 <= i < j < |data| ==> data[i].id != data[j].id
  }

  // ---------------------------------------------------------------- fetching

  /** The store throws `error` at the `call`-th `GetValue` of a fetch, counting from 0. */
  datatype Fault = Fault(call: nat, error: string)

  /** Some row of the table carries `name`. */
  predicate Stored(rows: seq<Row>, name: string)
  {
    exists i :: 0 <= i < |rows| && rows[i].name == name
  }

  /** The first row carrying `title`, projected: what one iteration of the fetch loop keeps. */
  function FirstFor(rows: seq<Row>, title: string): (r: seq<Record>)
    ensures |r| <= 1
    ensures r == [] <==> !Stored(rows, title)
    ensures forall x :: x in r ==> x.name == title
  {
    if rows == [] then []
    else if rows[0].name == title then [Project(rows[0])]
    else FirstFor(rows[1..], title)
  }

  /** `FirstFor` keeps exactly the first record that `GetValue(title)` returns, when it returns any. */
  lemma {:induction false} FirstForIsHeadOfGetValue(rows: seq<Row>, title: string)
    ensures var found := Matching(rows, title);
            FirstFor(rows, title) == if found == [] then [] else [found[0]]
  {
    if rows != [] && rows[0].name != title {
      FirstForIsHeadOfGetValue(rows[1..], title);
    }
  }

  /** The record kept for a title is the projection of the first row carrying it. */
  lemma {:induction false} FirstForIsFirstRow(rows: seq<Row>, title: string, k: nat)
    requires k < |rows| && rows[k].name == title
    requires forall j :: 0 <= j < k ==> rows[j].name != title
    ensures FirstFor(rows, title) == [Project(rows[k])]
  {
    if k > 0 {
      FirstForIsFirstRow(rows[1..], title, k - 1);
    }
  }

  /** The records the fetch loop collects for `titles`. */
  function FirstPerTitle(rows: seq<Row>, titles: seq<string>): (r: seq<Record>)
    ensures |r| <= |titles|
    decreases |titles|
  {
    if titles == [] then []
    else FirstPerTitle(rows, titles[..|titles| - 1]) + FirstFor(rows, titles[|titles| - 1])
  }

  /** One more iteration of the fetch loop adds what `FirstFor` keeps for the next title. */
  lemma FirstPerTitleSnoc(rows: seq<Row>, titles: seq<string>, i: nat)
    requires i < |titles|
    ensures FirstPerTitle(rows, titles[..i + 1]) == FirstPerTitle(rows, titles[..i]) + FirstFor(rows, titles[i])
  {
    assert titles[..i + 1][..i] == titles[..i];
  }

  /** Records come out in title order: those of earlier titles before those of later ones. */
  lemma {:induction false} FirstPerTitleAppend(rows: seq<Row>, a: seq<string>, b: seq<string>)
    ensures FirstPerTitle(rows, a + b) == FirstPerTitle(rows, a) + FirstPerTitle(rows, b)
    decreases |b|
  {
    if b == [] {
      assert a + b == a;
    } else {
      var b', last := b[..|b| - 1], b[|b| - 1];
      assert (a + b)[..|a + b| - 1] == a + b';
      assert (a + b)[|a + b| - 1] == last;
      FirstPerTitleAppend(rows, a, b');
      assert FirstPerTitle(rows, a + b) == FirstPerTitle(rows, a + b') + FirstFor(rows, last);
    }
  }

  /** When every title has a row, the fetch yields one record per title, named after it, in order. */
  lemma {:induction false} FirstPerTitleComplete(rows: seq<Row>, titles: seq<string>)
    requires forall k :: 0 <= k < |titles| ==> Stored(rows, titles[k])
    ensures |FirstPerTitle(rows, titles)| == |titles|
    ensures forall k :: 0 <= k < |titles| ==> FirstPerTitle(rows, titles)[k].name == titles[k]
    decreases |titles|
  {
    if titles != [] {
      var init := titles[..|titles| - 1];
      var last := titles[|titles| - 1];
      assert forall k :: 0 <= k < |init| ==> init[k] == titles[k];
      FirstPerTitleComplete(rows, init);
      assert Stored(rows, last);
      var f := FirstFor(rows, last);
      assert |f| == 1 && f[0].name == last by {
        assert f[0] in f;
      }
      assert FirstPerTitle(rows, titles) == FirstPerTitle(rows, init) + f;
    }
  }

  /** Every fetched record is the projection of a stored row and is named after one of the titles. */
  lemma {:induction false} FirstPerTitleOrigin(rows: seq<Row>, titles: seq<string>)
    ensures forall x :: x in FirstPerTitle(rows, titles) ==>
      (exists i :: 0 <= i < |rows| && Project(rows[i]) == x) && (exists m :: 0 <= m < |titles| && titles[m] == x.name)
    decreases |titles|
  {
    if titles != [] {
      var init := titles[..|titles| - 1];
      var last := titles[|titles| - 1];
      FirstPerTitleOrigin(rows, init);
      FirstForOrigin(rows, last);
      var prev, f := FirstPerTitle(rows, init), FirstFor(rows, last);
      assert FirstPerTitle(rows, titles) == prev + f;
      forall x: Record | x in prev + f
        ensures exists m :: 0 <= m < |titles| && titles[m] == x.name
      {
        if x in prev {
          var m :| 0 <= m < |init| && init[m] == x.name;
          assert titles[m] == x.name;
        } else {
          assert titles[|titles| - 1] == x.name;
        }
      }
    }
  }

  lemma {:induction false} FirstForOrigin(rows: seq<Row>, title: string)
    ensures forall x :: x in FirstFor(rows, title) ==> exists i :: 0 <= i < |rows| && Project(rows[i]) == x
  {
    if rows != [] {
      if rows[0].name == title {
        assert Project(rows[0]) == FirstFor(rows, title)[0];
      } else {
        FirstForOrigin(rows[1..], title);
        forall x: Record | x in FirstFor(rows, title)
          ensures exists i :: 0 <= i < |rows| && Project(rows[i]) == x
        {
          var i :| 0 <= i < |rows[1..]| && Project(rows[1..][i]) == x;
          assert Project(rows[i + 1]) == x;
        }
      }
    }
  }

  /** With a keyed table and distinct titles, the fetched records have distinct ids. */
  lemma {:induction false} FirstPerTitleIdsUnique(rows: seq<Row>, titles: seq<string>)
    requires UniqueIds(rows)
    requires forall i, j :: 0 <= i < j < |titles| ==> titles[i] != titles[j]
    ensures RecordIdsUnique(FirstPerTitle(rows, titles))
    decreases |titles|
  {
    if titles != [] {
      var init := titles[..|titles| - 1];
      var last := titles[|titles| - 1];
      FirstPerTitleIdsUnique(rows, init);
      FirstPerTitleOrigin(rows, init);
      FirstForOrigin(rows, last);
      var prev, f := FirstPerTitle(rows, init), FirstFor(rows, last);
      var r := prev + f;
      assert FirstPerTitle(rows, titles) == r;
      forall i, j | 0 <= i < j < |r|
        ensures r[i].id != r[j].id
      {
        if j >= |prev| {
          assert r[i] in prev && r[j] in f;
          var a :| 0 <= a < |rows| && Project(rows[a]) == r[i];
          var b :| 0 <= b < |rows| && Project(rows[b]) == r[j];
          var m :| 0 <= m < |init| && init[m] == r[i].name;
          assert titles[m] != last;
          assert rows[a].name != rows[b].name;
          if a < b {
            assert rows[a].id != rows[b].id;
          } else {
            assert rows[b].id != rows[a].id;
          }
        }
      }
    }
  }

  /** No title is fetched twice. */
  lemma TitlesDistinct()
    ensures forall i, j :: 0 <= i < j < |Titles| ==> Titles[i] != Titles[j]
  {
  }

  /** Fetching the nine titles never yields more than nine records. */
  lemma FetchAtMostNine(rows: seq<Row>)
    ensures |FirstPerTitle(rows, Titles)| <= 9
  {
  }

  // ---------------------------------------------------------------- gauge / numeric split

  /** `data.filter(item => gauge names include item.name)`. */
  function GaugeList(data: seq<Record>): (r: seq<Record>)
    ensures forall x :: x in r <==> x in data && IsGaugeName(x.name)
  {
    if data == [] then []
    else (if IsGaugeName(data[0].name) then [data[0]] else []) + GaugeList(data[1..])
  }

  /** `data.filter(item => !gauge names include item.name)`. */
  function NumericList(data: seq<Record>): (r: seq<Record>)
    ensures forall x :: x in r <==> x in data && !IsGaugeName(x.name)
  {
    if data == [] then []
    else (if IsGaugeName(data[0].name) then [] else [data[0]]) + NumericList(data[1..])
  }

  /** Every record lands in exactly one of the two lists, as often as it occurs in `data`. */
  lemma {:induction false} PartitionIsExact(data: seq<Record>)
    ensures multiset(GaugeList(data)) + multiset(NumericList(data)) == multiset(data)
  {
    if data != [] {
      PartitionIsExact(data[1..]);
      assert data == [data[0]] + data[1..];
    }
  }

  /** Between them the two lists have as many cards as `data` has records. */
  lemma PartitionSizes(data: seq<Record>)
    ensures |GaugeList(data)| + |NumericList(data)| == |data|
  {
    PartitionIsExact(data);
    assert |multiset(GaugeList(data)) + multiset(NumericList(data))| == |multiset(data)|;
  }

  /** The gauge filter keeps the order of `data`. */
  lemma {:induction false} GaugeListAppend(a: seq<Record>, b: seq<Record>)
    ensures GaugeList(a + b) == GaugeList(a) + GaugeList(b)
  {
    if a == [] {
      assert a + b == b;
    } else {
      assert (a + b)[1..] == a[1..] + b;
      GaugeListAppend(a[1..], b);
    }
  }

  /** The numeric filter keeps the order of `data`. */
  lemma {:induction false} NumericListAppend(a: seq<Record>, b: seq<Record>)
    ensures NumericList(a + b) == NumericList(a) + NumericList(b)
  {
    if a == [] {
      assert a + b == b;
    } else {
      assert (a + b)[1..] == a[1..] + b;
      NumericListAppend(a[1..], b);
    }
  }

  /** A list of gauge records passes the gauge filter whole. */
  lemma {:induction false} GaugeListOfGauges(data: seq<Record>)
    requires forall k :: 0 <= k < |data| ==> IsGaugeName(data[k].name)
    ensures GaugeList(data) == data
  {
    if data != [] {
      GaugeListOfGauges(data[1..]);
      assert data == [data[0]] + data[1..];
    }
  }

  /** A list without gauge records has none in the gauge filter. */
  lemma {:induction false} GaugeListOfNumbers(data: seq<Record>)
    requires forall k :: 0 <= k < |data| ==> !IsGaugeName(data[k].name)
    ensures GaugeList(data) == []
  {
    if data != [] {
      GaugeListOfNumbers(data[1..]);
    }
  }

  /** None of the six numeric names is a gauge name. */
  lemma NumericNamesAreNotGauges()
    ensures forall k :: 0 <= k < |NumericNames| ==> !IsGaugeName(NumericNames[k])
  {
  }

  /** Nine records named after the nine titles, in order, split into three gauges and six numbers. */
  lemma ThreeGaugesSixNumbers(data: seq<Record>)
    requires |data| == |Titles| && forall k :: 0 <= k < |data| ==> data[k].name == Titles[k]
    ensures |GaugeList(data)| == 3 && |NumericList(data)| == 6
  {
    var gauges, numbers := data[..3], data[3..];
    NamedAfterTitles(data);
    GaugeListAppend(gauges, numbers);
    GaugeNamesFirst(gauges);
    NumericNamesAfter(numbers);
    PartitionSizes(data);
  }

  /** Nine records named after the titles: the first three carry the gauge names, the other six
      the numeric names. */
  lemma NamedAfterTitles(data: seq<Record>)
    requires |data| == |Titles| && forall k :: 0 <= k < |data| ==> data[k].name == Titles[k]
    ensures data == data[..3] + data[3..]
    ensures |data[..3]| == 3 && forall k :: 0 <= k < 3 ==> data[..3][k].name == GaugeNames[k]
    ensures |data[3..]| == 6 && forall k :: 0 <= k < 6 ==> data[3..][k].name == NumericNames[k]
  {
    TitlesSplit();
    assert forall k :: 0 <= k < 3 ==> data[..3][k].name == Titles[..3][k];
    assert forall k :: 0 <= k < 6 ==> data[3..][k].name == Titles[3..][k];
  }

  /** The nine titles are the three gauge names followed by the six numeric names. */
  lemma TitlesSplit()
    ensures |Titles| == 9 && Titles[..3] == GaugeNames && Titles[3..] == NumericNames
  {
  }

  /** Records named after the three gauge names all pass the gauge filter. */
  lemma GaugeNamesFirst(gauges: seq<Record>)
    requires |gauges| == 3 && forall k :: 0 <= k < 3 ==> gauges[k].name == GaugeNames[k]
    ensures GaugeList(gauges) == gauges
  {
    GaugeListOfGauges(gauges);
  }

  /** Records named after the six numeric names all fail the gauge filter. */
  lemma NumericNamesAfter(numbers: seq<Record>)
    requires |numbers| == 6 && forall k :: 0 <= k < 6 ==> numbers[k].name == NumericNames[k]
    ensures GaugeList(numbers) == []
  {
    NumericNamesAreNotGauges();
    GaugeListOfNumbers(numbers);
  }

  /** A table holding every one of the nine names renders three gauges and six numeric cards. */
  lemma FullStoreRendersThreeGauges(rows: seq<Row>)
    requires forall k :: 0 <= k < |Titles| ==> Stored(rows, Titles[k])
    ensures |FirstPerTitle(rows, Titles)| == 9
    ensures |GaugeList(FirstPerTitle(rows, Titles))| == 3
    ensures |NumericList(FirstPerTitle(rows, Titles))| == 6
  {
    FirstPerTitleComplete(rows, Titles);
    ThreeGaugesSixNumbers(FirstPerTitle(rows, Titles));
  }

  // ---------------------------------------------------------------- labels

  /** The label each gauge is given, whose digits set its target. */
  function LabelFor(name: string): string
  {
    if name == "Fechados Mês" then "de 100"
    else if name == "Fechados Dia" then "de 3"
    else ""
  }

  /** The total gauge's label is empty, so it aims at the default 100. */
  lemma TotalGaugeTarget()
    ensures Target(LabelFor("Fechados Total")) == 100
  {
  }

  /** The month gauge's label "de 100" aims at 100. */
  lemma MonthGaugeTarget()
    ensures Target(LabelFor("Fechados Mês")) == 100
  {
    assert LabelFor("Fechados Mês") == "de " + NatToString(100) by {
      assert NatToString(1) == "1";
      assert NatToString(10) == "10";
    }
    DeLabelTarget(100);
  }

  /** The day gauge's label "de 3" aims at 3. */
  lemma DayGaugeTarget()
    ensures Target(LabelFor("Fechados Dia")) == 3
  {
    assert LabelFor("Fechados Dia") == "de " + NatToString(3);
    DeLabelTarget(3);
  }

  /** A label "de n" aims at n. */
  lemma DeLabelTarget(n: nat)
    ensures Target("de " + NatToString(n)) == n
  {
    TargetOfNumberInLabel("de ", n, "");
    assert "de " + NatToString(n) + "" == "de " + NatToString(n);
  }

  // ---------------------------------------------------------------- what a card shows

  /** A card shows the number input with Save and Cancel, or its value (gauge or number) with
      an Edit button seeded with `editSeed` when there is one. */
  datatype CardBody = EditForm | ValueView(editSeed: Option<string>)

  /** The body of a card in `Dashboard`, gauge or numeric: the editor exactly when this card is
      being edited and a user is signed in; otherwise an Edit button only for a signed-in user.
      `seed` is what Edit puts in the editor: `value.toString()` for a gauge, the raw text for a
      numeric card. */
  function DashCardBody(editingId: Option<string>, id: string, session: Option<Session>, seed: string): (b: CardBody)
    ensures b == EditForm <==> editingId == Some(id) && HasUser(session)
    ensures b.ValueView? ==> (b.editSeed.Some? <==> HasUser(session))
    ensures b.ValueView? && HasUser(session) ==> b.editSeed.value == seed
  {
    if editingId == Some(id) && HasUser(session) then EditForm
    else if HasUser(session) then ValueView(Some(seed))
    else ValueView(None)
  }

  /** What a record's Edit button puts in the editor: a gauge passes `parseInt(value, 10).toString()`
      (the text "NaN" when the value does not parse), a numeric card passes the stored text.
      Saving the seed unchanged stores text that displays as the same number as before,
      although a gauge's seed may differ from the stored text ("007" is seeded as "7"). */
  function EditSeed(r: Record): (s: string)
    ensures ParseInt(s) == ParseInt(r.value)
  {
    if IsGaugeName(r.name) then
      match ParseInt(r.value)
      case Some(v) => ParseIntToString(v); IntToString(v)
      case None => assert LeadingDigits("NaN") == []; "NaN"
    else r.value
  }

  /** With distinct ids, at most one card shows the editor. */
  lemma AtMostOneEditor(data: seq<Record>, editingId: Option<string>, session: Option<Session>, seeds: seq<string>)
    requires RecordIdsUnique(data) && |seeds| == |data|
    ensures forall i, j ::
      (0 <= i < |data| && 0 <= j < |data|
       && DashCardBody(editingId, data[i].id, session, seeds[i]) == EditForm
       && DashCardBody(editingId, data[j].id, session, seeds[j]) == EditForm) ==> i == j
  {
  }

  // ---------------------------------------------------------------- saving

  /** `prev.map(item => item.id === id ? updated : item)`. */
  function ReplaceById(data: seq<Record>, id: string, updated: Record): (r: seq<Record>)
    ensures |r| == |data|
    ensures forall k :: 0 <= k < |data| && data[k].id == id ==> r[k] == updated
    ensures forall k :: 0 <= k < |data| && data[k].id != id ==> r[k] == data[k]
  {
    if data == [] then []
    else [if data[0].id == id then updated else data[0]] + ReplaceById(data[1..], id, updated)
  }

  /** Replacing a record by one with the same id keeps the ids distinct. */
  lemma ReplaceKeepsIdsUnique(data: seq<Record>, id: string, updated: Record)
    requires RecordIdsUnique(data) && updated.id == id
    ensures RecordIdsUnique(ReplaceById(data, id, updated))
  {
    var r := ReplaceById(data, id, updated);
    assert forall k :: 0 <= k < |data| ==> r[k].id == data[k].id;
  }

  /** One iteration of the fetch loop extends the records of the titles before it by the first
      record `GetValue` returns for the next title, if any. */
  lemma CollectStep(rows: seq<Row>, titles: seq<string>, i: nat, values: seq<Record>)
    requires i < |titles| && values == Matching(rows, titles[i])
    ensures FirstPerTitle(rows, titles[..i + 1])
      == FirstPerTitle(rows, titles[..i]) + (if |values| > 0 then [values[0]] else [])
  {
    FirstForIsHeadOfGetValue(rows, titles[i]);
    FirstPerTitleSnoc(rows, titles, i);
  }

  /** The `for (const title of titles)` loop of `fetchData`: one `GetValue` per title, in order,
      keeping the first record of each; `fault` is the first call at which the store throws, if
      any. That fault ends the loop and nothing collected so far is kept (None). */
  method CollectFirsts(rows: seq<Row>, titles: seq<string>, fault: Option<Fault>) returns (r: Option<seq<Record>>)
    ensures r.None? <==> fault.Some? && fault.value.call < |titles|
    ensures r.Some? ==> r.value == FirstPerTitle(rows, titles)
  {
    var fetched: seq<Record> := [];
    for i := 0 to |titles|
      invariant fetched == FirstPerTitle(rows, titles[..i])
      invariant fault.None? || fault.value.call >= i
    {
      var values := GetValue(rows, titles[i], if fault.Some? && fault.value.call == i then Some(fault.value.error) else None);
      if values.Err? {
        return None;
      }
      CollectStep(rows, titles, i, values.value);
      if |values.value| > 0 {
        fetched := fetched + [values.value[0]];
      }
    }
    assert titles[..|titles|] == titles;
    r := Some(fetched);
  }

  // ---------------------------------------------------------------- the view's state

  class DashboardState {
    var data: seq<Record>
    var editingId: Option<string>
    var editValue: string

    /** The records on screen have distinct ids, so at most one card is in edit mode
        (`AtMostOneEditor`). */
    predicate Valid()
      reads this
    {
      RecordIdsUnique(data)
    }

    /** `useState([])`, `useState(null)`, `useState("")`. */
    constructor ()
      ensures Valid()
      ensures data == [] && editingId == None && editValue == ""
    {
      data, editingId, editValue := [], None, "";
    }

    /** `fetchData` on mount. `fault` is the first `GetValue` call at which the store throws, if
        any; such a fault aborts the fetch and `data` stays as it was. */
    method FetchData(db: Store, fault: Option<Fault>)
      requires Valid() && db.Valid()
      modifies this`data
      ensures Valid()
      ensures fault.None? || fault.value.call >= |Titles| ==> data == FirstPerTitle(db.rows, Titles)
      ensures fault.Some? && fault.value.call < |Titles| ==> data == old(data)
    {
      var fetched := CollectFirsts(db.rows, Titles, fault);
      if fetched.Some? {
        TitlesDistinct();
        FirstPerTitleIdsUnique(db.rows, Titles);
        data := fetched.value;
      }
    }

    /** `handleEdit(id, currentValue)`. */
    method HandleEdit(id: string, currentValue: string)
      requires Valid()
      modifies this`editingId, this`editValue
      ensures Valid()
      ensures editingId == Some(id) && editValue == currentValue
    {
      editingId := Some(id);
      editValue := currentValue;
    }

    /** `setEditValue(e.target.value)`: the user types into the editor. */
    method SetEditValue(v: string)
      requires Valid()
      modifies this`editValue
      ensures Valid()
      ensures editValue == v
    {
      editValue := v;
    }

    /** `handleCancel()`. */
    method HandleCancel()
      requires Valid()
      modifies this`editingId, this`editValue
      ensures Valid()
      ensures editingId == None && editValue == ""
    {
      editingId := None;
      editValue := "";
    }

    /** `handleSave(id)`: sends the draft to `updateData`; on success puts the returned record in
        place of every record with that id and leaves edit mode, on failure changes nothing. */
    method HandleSave(id: string, db: Store, session: Option<Session>,
                      lookupFault: Option<string>, writeFault: Option<string>)
      requires Valid() && db.Valid()
      modifies this, db
      ensures Valid() && db.Valid()
      ensures db.rows == StoreAfter(old(db.rows), session, UpdateRequest(id, old(editValue)), lookupFault, writeFault)
      ensures var out := UpdateOutcome(old(db.rows), session, UpdateRequest(id, old(editValue)), lookupFault, writeFault);
        (out.Ok? ==> data == ReplaceById(old(data), id, out.value) && editingId == None && editValue == "")
        && (out.Err? ==> data == old(data) && editingId == old(editingId) && editValue == old(editValue))
    {
      var updated := UpdateData(db, session, UpdateRequest(id, editValue), lookupFault, writeFault);
      if updated.Ok? {
        ReplaceKeepsIdsUnique(data, id, updated.value);
        data := ReplaceById(data, id, updated.value);
        editingId := None;
        editValue := "";
      }
    }
  }
}
