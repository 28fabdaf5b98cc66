/**
 * Login and registration against the `user` table. The table is a field of
 * the controller standing for the database; ids are assigned by an
 * auto-increment counter. Every UserDAO call opens its own connection, so
 * each call has its own failure flag: a failing query finds nothing and a
 * failing insert reports failure, as UserDAO's catch blocks make them do.
 */
module Auth {
  import opened JavaText
  import opened UserStore

  /** The user a login with these credentials lets in, if any. */
  function Authenticate(users: seq<User>, username: string, password: string): (r: Option<User>)
    ensures r.Some? <==> exists k :: 0 <= k < |users| && users[k].name == username && ByName(users, username) == Some(users[k]) && users[k].password == password
    ensures r.Some? ==> r.value in users && r.value.name == username && r.value.password == password
  {
    var found := ByName(users, username);
    if found.Some? && found.value.password == password then found else None
  }

  /** Only the first row with a name is ever checked: a later duplicate's password does not let anyone in. */
  lemma FirstRowDecides(users: seq<User>, username: string, password: string, k: nat)
    requires k < |users| && users[k].name == username && users[k].password != password
    requires forall j :: 0 <= j < k ==> users[j].name != username
    ensures Authenticate(users, username, password) == None
  {
    FirstByName(users, username, k);
  }

  /** `getUserByName` finds the first row with the name. */
  lemma {:induction false} FirstByName(users: seq<User>, name: string, k: nat)
    requires k < |users| && users[k].name == name
    requires forall j :: 0 <= j < k ==> users[j].name != name
    ensures ByName(users, name) == Some(users[k])
  {
    if k > 0 {
      FirstByName(users[1..], name, k - 1);
    }
  }

  /** A name no row holds cannot log in, whatever the password. */
  lemma UnknownNameFails(users: seq<User>, username: string, password: string)
    requires forall k :: 0 <= k < |users| ==> users[k].name != username
    ensures Authenticate(users, username, password) == None
  {
  }

  class AuthController {
    /** The `user` table, in insertion order. */
    var users: seq<User>
    /** The id the next inserted row receives. */
    var nextId: int
    /** `null` until the first successful login. */
    var currentUser: Option<User>

    /** Every row's id was handed out before. */
    ghost predicate Valid()
      reads this
    {
      forall k :: 0 <= k < |users| ==> users[k].id < nextId
    }

    constructor (table: seq<User>, nextRowId: int)
      requires forall k :: 0 <= k < |table| ==> table[k].id < nextRowId
      ensures Valid() && users == table && nextId == nextRowId && currentUser == None
    {
      users := table;
      nextId := nextRowId;
      currentUser := None;
    }

    /**
     * `login`: true exactly when the first row with that name has that
     * password; it then becomes the current user. A failed login changes
     * nothing.
     */
    method Login(username: string, password: string, dbDown: bool) returns (ok: bool)
      requires Valid()
      modifies this
      ensures Valid() && users == old(users) && nextId == old(nextId)
      ensures ok <==> !dbDown && Authenticate(users, username, password).Some?
      ensures ok ==> currentUser == Authenticate(users, username, password)
      ensures !ok ==> currentUser == old(currentUser)
    {
      var user := if dbDown then None else ByName(users, username);
      if user.Some? && user.value.password == password {
        currentUser := user;
        return true;
      }
      return false;
    }

    /**
     * `register`: a name the lookup finds is refused with no insert;
     * otherwise one row with the name and password is inserted and
     * `addUser`'s result is returned. The lookup and the insert each open a
     * connection: when only the lookup fails it finds nothing, and the name
     * is inserted even if a row already holds it. The current user never
     * changes.
     */
    method Register(username: string, password: string, lookupDown: bool, insertDown: bool) returns (ok: bool)
      requires Valid()
      modifies this
      ensures Valid() && currentUser == old(currentUser)
      ensures ok <==> !insertDown && (lookupDown || ByName(old(users), username).None?)
      ensures ok ==> users == old(users) + [User(old(nextId), username, password)] && nextId == old(nextId) + 1
      ensures !ok ==> users == old(users) && nextId == old(nextId)
    {
      var existing := if lookupDown then None else ByName(users, username);
      if existing.Some? {
        return false;
      }
      if insertDown {
        return false;
      }
      users := users + [User(nextId, username, password)];
      nextId := nextId + 1;
      return true;
    }

    /** `getCurrentUser` */
    function CurrentUser(): Option<User>
      reads this
    {
      currentUser
    }
  }

  /** After a successful registration that name and password log in, as the new row. */
  lemma RegisteredCanLogIn(users: seq<User>, id: int, username: string, password: string)
    requires ByName(users, username).None?
    ensures Authenticate(users + [User(id, username, password)], username, password) == Some(User(id, username, password))
  {
    FirstByName(users + [User(id, username, password)], username, |users|);
  }
}
