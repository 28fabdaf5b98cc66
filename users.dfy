/**
 * The `user` table as the rest of the application sees it through UserDAO:
 * rows of (id, name, password), looked up by id or by name. The SQL itself
 * is not modelled; a lookup returns the first matching row, as reading the
 * first row of the result set does.
 */
module UserStore {
  import opened JavaText

  datatype User = User(id: int, name: string, password: string)

  /** `getUserNameById`: the name of the first row with this id, absent when there is none. */
  function NameById(users: seq<User>, id: int): (r: Option<string>)
    ensures r.Some? ==> exists k :: 0 <= k < |users| && users[k].id == id && users[k].name == r.value
    ensures r.None? <==> forall k :: 0 <= k < |users| ==> users[k].id != id
  {
    if users == [] then None
    else if users[0].id == id then Some(users[0].name)
    else
      var r := NameById(users[1..], id);
      assert forall k :: 1 <= k < |users| ==> users[k] == users[1..][k - 1];
      r
  }

  /** `getUserByName`: the first row with this name, absent when there is none. */
  function ByName(users: seq<User>, name: string): (r: Option<User>)
    ensures r.Some? ==> r.value in users && r.value.name == name
    ensures r.None? <==> forall k :: 0 <= k < |users| ==> users[k].name != name
  {
    if users == [] then None
    else if users[0].name == name then Some(users[0])
    else
      var r := ByName(users[1..], name);
      assert forall k :: 1 <= k < |users| ==> users[k] == users[1..][k - 1];
      r
  }
}
