/** The second copy of `ChartRadialTexts`: the same gauge arithmetic (module Gauge),
    but its editor and Edit button ignore the session. */
module Chart2 {
  import opened Records
  import opened Decimal
  import opened Dashboard

  /** The body of this variant's card: the editor exactly when `isEditing`, otherwise the gauge
      with an Edit button that is always there and seeds the editor with `value.toString()`. */
  function Chart2CardBody(isEditing: bool, value: int): (b: CardBody)
    ensures b == EditForm <==> isEditing
    ensures b.ValueView? ==> b.editSeed.Some? && ParseInt(b.editSeed.value) == Some(value)
  {
    ParseIntToString(value);
    if isEditing then EditForm else ValueView(Some(IntToString(value)))
  }

  /** With a signed-in user the two variants show the same card; without one, the dashboard's
      gauge shows neither editor nor Edit button while this variant still offers both. */
  lemma VariantsDifferOnlyWithoutUser(editingId: Option<string>, id: string, session: Option<Session>, value: int)
    ensures HasUser(session) ==>
      DashCardBody(editingId, id, session, IntToString(value)) == Chart2CardBody(editingId == Some(id), value)
    ensures !HasUser(session) ==> DashCardBody(editingId, id, session, IntToString(value)) == ValueView(None)
    ensures Chart2CardBody(editingId == Some(id), value) != ValueView(None)
  {
  }
}
