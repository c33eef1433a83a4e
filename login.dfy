/** The `login` view: the users sheet is read into a map from ID to PASSWORD,
    the submitted ID and password are stripped and compared, and the session
    receives the ID and the user's authority. Sessions and redirects are
    represented by the outcome value. */
module Login {
  import opened Wrappers
  import opened Text
  import opened Sheets

  const IdColumn := "ID"
  const PasswordColumn := "PASSWORD"
  const AuthorityColumn := "AUTHORITY"

  /** A GET shows the form; a POST submits the two form fields. */
  datatype LoginRequest = Show | Submit(userId: string, password: string)

  /** The connection-failure message, the HTTP 500 a KeyError on a missing
      column causes, the login form (with or without the error message), or
      a successful login with what is stored in the session. */
  datatype LoginOutcome =
    | SheetUnavailable
    | KeyError
    | LoginForm(rejected: bool)
    | LoggedIn(userId: string, authority: Option<string>)

  predicate HasColumns(header: seq<string>) {
    IdColumn in header && PasswordColumn in header
  }

  function Id(header: seq<string>, record: seq<string>): Option<string>
    requires HasColumns(header)
  {
    Cell(header, record, IdColumn)
  }

  /** `{row["ID"]: row["PASSWORD"] for _, row in df.iterrows()}`, built in sheet
      order so that a later row with the same ID replaces an earlier one. A
      record without an ID cell is filed under None, which no submitted ID
      equals, so it is left out of the map. */
  function Users(header: seq<string>, records: seq<seq<string>>): (users: map<string, Option<string>>)
    requires HasColumns(header)
    ensures forall id :: id in users <==> exists j :: 0 <= j < |records| && Id(header, records[j]) == Some(id)
    decreases |records|
  {
    if records == [] then map[]
    else
      var n := |records| - 1;
      var users := Users(header, records[..n]);
      assert forall j :: 0 <= j < n ==> records[..n][j] == records[j];
      match Id(header, records[n])
      case None => users
      case Some(id) => users[id := Cell(header, records[n], PasswordColumn)]
  }

  /** The password the map holds for `id` is the one on the last row with that ID. */
  lemma {:induction false} UsersKeepLastRow(header: seq<string>, records: seq<seq<string>>, id: string, j: nat)
    requires HasColumns(header)
    requires j < |records| && Id(header, records[j]) == Some(id)
    requires forall k :: j < k < |records| ==> Id(header, records[k]) != Some(id)
    ensures id in Users(header, records)
    ensures Users(header, records)[id] == Cell(header, records[j], PasswordColumn)
    decreases |records|
  {
    var n := |records| - 1;
    if j < n {
      assert records[..n][j] == records[j];
      forall k | j < k < n
        ensures Id(header, records[..n][k]) != Some(id)
      {
        assert records[..n][k] == records[k];
      }
      UsersKeepLastRow(header, records[..n], id, j);
    }
  }

  /** The first row whose ID is `id`: `df.loc[df["ID"] == user_id, ...].values[0]`. */
  function FirstRow(header: seq<string>, records: seq<seq<string>>, id: string): (j: nat)
    requires HasColumns(header)
    requires exists j :: 0 <= j < |records| && Id(header, records[j]) == Some(id)
    ensures j < |records| && Id(header, records[j]) == Some(id)
    ensures forall k :: 0 <= k < j ==> Id(header, records[k]) != Some(id)
  {
    if Id(header, records[0]) == Some(id) then 0
    else
      var j :| 0 <= j < |records| && Id(header, records[j]) == Some(id);
      assert records[1..][j - 1] == records[j];
      var k := FirstRow(header, records[1..], id);
      assert forall i :: 1 <= i < k + 1 ==> records[i] == records[1..][i - 1];
      k + 1
  }

  /** `login()`: `f` is the users sheet as `get_google_sheet_data` returns it. */
  function Login(f: Frame, request: LoginRequest): (out: LoginOutcome)
    ensures out.SheetUnavailable? <==> IsEmpty(f)
    ensures out.KeyError? <==> !IsEmpty(f) && !HasColumns(f.header)
    ensures out.LoginForm? ==> (out.rejected <==> request.Submit?)
    ensures out.LoggedIn? <==>
      (!IsEmpty(f) && HasColumns(f.header) && request.Submit?
       && Strip(request.userId) in Users(f.header, f.records)
       && Users(f.header, f.records)[Strip(request.userId)] == Some(Strip(request.password)))
    ensures out.LoggedIn? ==>
      (out.userId == Strip(request.userId)
       && exists j :: 0 <= j < |f.records| && Id(f.header, f.records[j]) == Some(out.userId))
    ensures out.LoggedIn? && AuthorityColumn !in f.header ==> out.authority == Some("n")
  {
    if IsEmpty(f) then SheetUnavailable
    else if !HasColumns(f.header) then KeyError
    else match request
      case Show => LoginForm(false)
      case Submit(userId, password) =>
        var users := Users(f.header, f.records);
        var id := Strip(userId);
        var pw := Strip(password);
        if id in users && users[id] == Some(pw) then
          var authority :=
            if AuthorityColumn in f.header then Cell(f.header, f.records[FirstRow(f.header, f.records, id)], AuthorityColumn)
            else Some("n");
          LoggedIn(id, authority)
        else LoginForm(true)
  }

  /** A duplicated ID logs in with the password of its last row, and takes the
      authority of its first row. */
  lemma LoginWithDuplicateId(f: Frame, userId: string, password: string, j: nat)
    requires !IsEmpty(f) && HasColumns(f.header) && AuthorityColumn in f.header
    requires j < |f.records| && Id(f.header, f.records[j]) == Some(Strip(userId))
    requires forall k :: j < k < |f.records| ==> Id(f.header, f.records[k]) != Some(Strip(userId))
    ensures var out := Login(f, Submit(userId, password));
      (out.LoggedIn? <==> Cell(f.header, f.records[j], PasswordColumn) == Some(Strip(password)))
      && (out.LoggedIn? ==>
            out.authority == Cell(f.header, f.records[FirstRow(f.header, f.records, Strip(userId))], AuthorityColumn))
  {
    UsersKeepLastRow(f.header, f.records, Strip(userId), j);
  }

  /** An ID that is on no row never logs in, whatever the password. */
  lemma UnknownIdRejected(f: Frame, userId: string, password: string)
    requires !IsEmpty(f) && HasColumns(f.header)
    requires forall k :: 0 <= k < |f.records| ==> Id(f.header, f.records[k]) != Some(Strip(userId))
    ensures Login(f, Submit(userId, password)) == LoginForm(true)
  {
  }

  /** Spaces around what the user types do not matter. */
  lemma LoginIgnoresSurroundingSpace(f: Frame, userId: string, password: string)
    ensures Login(f, Submit(userId, password)) == Login(f, Submit(Strip(userId), Strip(password)))
  {
    StripSpec(userId);
    StripSpec(password);
  }
}
