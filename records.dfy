/** The entities shared by the dashboard and its two server actions: a metric
    record as the actions return it, a stored row, the session, and the
    outcome of a server action (a value or a thrown error message). */
module Records {

  datatype Option<T> = None | Some(value: T)

  /** A server action either returns a value or throws an Error whose message the caller sees. */
  datatype Result<T> = Ok(value: T) | Err(message: string)

  /** The `{ id, name, value }` projection every action selects (`DataValue`). */
  datatype Record = Record(id: string, name: string, value: string)

  /** A row of the metric table: the three selected columns plus whatever other
      columns the table has, which no action ever returns. */
  datatype Row = Row(id: string, name: string, value: string, otherColumns: map<string, string>)

  /** The `select: { id, name, value }` projection of a row. */
  function Project(row: Row): (r: Record)
    ensures r.id == row.id && r.name == row.name && r.value == row.value
  {
    Record(row.id, row.name, row.value)
  }

  /** Ids are the table's primary key: no two rows share one. */
  predicate UniqueIds(rows: seq<Row>)
  {
    forall i, j :: 0 <= i < j < |rows| ==> rows[i].id != rows[j].id
  }

  /** A next-auth session; `user` and its `email` may each be absent. */
  datatype User = User(email: Option<string>)
  datatype Session = Session(user: Option<User>)

  /** The client-side gate `session?.user`: a session with a user in it. */
  predicate HasUser(session: Option<Session>)
  {
    session.Some? && session.value.user.Some?
  }

  /** The server-side gate `session?.user?.email`: a user with a non-empty email. */
  predicate Authenticated(session: Option<Session>)
  {
    HasUser(session) && session.value.user.value.email.Some? && session.value.user.value.email.value != ""
  }

  /** The server only accepts what the client would show edit controls for, but not conversely:
      a signed-in user without an email sees the edit controls and is refused by the server. */
  lemma AuthenticatedHasUser(session: Option<Session>)
    ensures Authenticated(session) ==> HasUser(session)
    ensures HasUser(Some(Session(Some(User(None))))) && !Authenticated(Some(Session(Some(User(None)))))
  {
  }

  /** Messages of the errors the actions throw. */
  const Unauthenticated: string := "Usuário não autenticado."
  const NotFound: string := "Registro não encontrado."
  const UpdateFailed: string := "Não foi possível atualizar os dados."
  const FetchFailed: string := "Failed to fetch data."
}
