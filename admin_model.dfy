/**
 * The `admin` table, which holds the administrator's password hash. The code
 * keeps at most one row: `setPassword` updates the first row when there is one
 * and inserts one otherwise. Hashing and comparing are bcrypt's; here the hash
 * arrives already computed and the comparison is a parameter.
 */
module AdminModel {
  import opened Wrappers
  import opened Js

  datatype Admin = Admin(id: int, passwordHash: string)

  const NotConfiguredMessage := "Admin não configurado"
  const WrongPasswordMessage := "Senha incorreta"

  /** `bcrypt.compare(password, hash)`: whether they match, or the error it throws. */
  type Compare = (Json, string) -> Result<bool, Error>

  /** No two rows share an id. */
  ghost predicate DistinctIds(rows: seq<Admin>)
  {
    forall i, j :: 0 <= i < j < |rows| ==> rows[i].id != rows[j].id
  }

  /** The first row with that id, if any. */
  function FindRow(rows: seq<Admin>, id: int): (r: Option<Admin>)
    ensures r.Some? <==> exists i :: 0 <= i < |rows| && rows[i].id == id
    ensures r.Some? ==> r.value in rows && r.value.id == id
  {
    if rows == [] then None
    else if rows[0].id == id then Some(rows[0])
    else
      var rest := FindRow(rows[1..], id);
      assert forall i :: 1 <= i < |rows| ==> rows[i] == rows[1..][i - 1];
      rest
  }

  /**
   * `setPassword` on the rows: with a row present, the first row's hash becomes
   * `hash` (`WHERE id = <first id>`); with none, one row is inserted under the
   * next id.
   */
  function SetPasswordRows(rows: seq<Admin>, nextId: int, hash: string): (r: seq<Admin>)
    requires DistinctIds(rows)
    ensures rows == [] ==> r == [Admin(nextId, hash)]
    ensures rows != [] ==> |r| == |rows| && r[0] == rows[0].(passwordHash := hash)
    ensures rows != [] ==> forall i :: 1 <= i < |rows| ==> r[i] == rows[i]
    ensures r != [] && r[0].passwordHash == hash
  {
    if rows == [] then [Admin(nextId, hash)]
    else
      var first := rows[0].id;
      seq(|rows|, i requires 0 <= i < |rows| => if rows[i].id == first then rows[i].(passwordHash := hash) else rows[i])
  }

  /** The singleton stays a singleton: after `setPassword` there is exactly one row when there was at most one. */
  lemma SetPasswordKeepsOneRow(rows: seq<Admin>, nextId: int, hash: string)
    requires DistinctIds(rows) && |rows| <= 1
    ensures |SetPasswordRows(rows, nextId, hash)| == 1
    ensures SetPasswordRows(rows, nextId, hash)[0].passwordHash == hash
  {
  }

  /** The admin table, with its auto-increment counter. */
  class AdminTable {
    var rows: seq<Admin>
    var nextId: int

    ghost predicate Valid()
      reads this
    {
      nextId >= 1 && DistinctIds(rows) && forall i :: 0 <= i < |rows| ==> 1 <= rows[i].id < nextId
    }

    constructor ()
      ensures Valid() && rows == [] && nextId == 1
    {
      rows := [];
      nextId := 1;
    }

    /** `findById`: the row with that id, or null. */
    function FindById(id: int): (r: Option<Admin>)
      reads this
      ensures r.Some? <==> exists i :: 0 <= i < |rows| && rows[i].id == id
      ensures r.Some? ==> r.value in rows && r.value.id == id
    {
      FindRow(rows, id)
    }

    /**
     * `verifyPassword`: compares against the first row. An empty table and a
     * mismatch fail with two different messages; an error of the comparison
     * itself propagates.
     */
    function VerifyPassword(password: Json, compare: Compare): (r: Result<Admin, Error>)
      reads this
      ensures rows == [] ==> r == Err(Thrown(NotConfiguredMessage))
      ensures r.Ok? <==> rows != [] && compare(password, rows[0].passwordHash) == Ok(true)
      ensures r.Ok? ==> r.value == rows[0]
      ensures rows != [] && compare(password, rows[0].passwordHash) == Ok(false) ==> r == Err(Thrown(WrongPasswordMessage))
      ensures rows != [] && compare(password, rows[0].passwordHash).Err? ==> r == Err(compare(password, rows[0].passwordHash).error)
    {
      if rows == [] then Err(Thrown(NotConfiguredMessage))
      else
        match compare(password, rows[0].passwordHash)
        case Err(e) => Err(e)
        case Ok(valid) => if valid then Ok(rows[0]) else Err(Thrown(WrongPasswordMessage))
    }

    /** `setPassword`, with `hash` the freshly computed bcrypt hash. */
    method SetPassword(hash: string) returns (ok: bool)
      requires Valid()
      modifies this
      ensures Valid()
      ensures rows == SetPasswordRows(old(rows), old(nextId), hash)
      ensures nextId == if old(rows) == [] then old(nextId) + 1 else old(nextId)
      ensures ok
    {
      if |rows| > 0 {
        var existing, first := rows, rows[0].id;
        rows := seq(|existing|, i requires 0 <= i < |existing| =>
                      if existing[i].id == first then existing[i].(passwordHash := hash) else existing[i]);
      } else {
        rows := [Admin(nextId, hash)];
        nextId := nextId + 1;
      }
      ok := true;
    }
  }
}
