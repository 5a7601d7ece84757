/**
 * The `users` table as the core uses it through the TypeORM repository:
 * records with an auto-incremented id, a unique `username` and a unique
 * (but nullable) `wechatOpenId`; exact-match lookups; and `save` of a new
 * record, which the database refuses when a unique column is already taken.
 */
module UserDirectory {
  import opened Wrappers
  import opened CommonErrors

  /** A row of `users`; the two timestamp columns are left out. */
  datatype User = User(
    id: nat,
    username: Option<string>,
    realName: Option<string>,
    password: string,
    email: Option<string>,
    phone: Option<string>,
    wechatOpenId: Option<string>,
    wechatNickName: Option<string>,
    wechatAvatarUrl: Option<string>,
    status: int)

  /** The rows, and the id the next insert receives. */
  datatype Directory = Directory(users: seq<User>, nextId: nat)

  /** What the database reports for an insert that breaks a unique column. */
  const DuplicateEntry := "ER_DUP_ENTRY: Duplicate entry"

  /** Ids are distinct and below `nextId`; no two rows share a username or a
      (non-null) openid. */
  ghost predicate Valid(d: Directory)
  {
    (forall i :: 0 <= i < |d.users| ==> d.users[i].id < d.nextId) &&
    (forall i, j :: 0 <= i < j < |d.users| ==> d.users[i].id != d.users[j].id) &&
    (forall i, j :: 0 <= i < j < |d.users| && d.users[i].username.Some? ==>
       d.users[i].username != d.users[j].username) &&
    (forall i, j :: 0 <= i < j < |d.users| && d.users[i].wechatOpenId.Some? ==>
       d.users[i].wechatOpenId != d.users[j].wechatOpenId)
  }

  /** `findOne({ where })`: the first row that matches, if any. */
  function FindFirst(users: seq<User>, matches: User -> bool): (r: Option<User>)
    ensures r.Some? ==> r.value in users && matches(r.value)
    ensures r.None? ==> forall u :: u in users ==> !matches(u)
  {
    if |users| == 0 then None
    else if matches(users[0]) then Some(users[0])
    else FindFirst(users[1..], matches)
  }

  /** `findByOpenId(openid)`. */
  function FindByOpenId(users: seq<User>, openid: string): (r: Option<User>)
    ensures r.Some? ==> r.value in users && r.value.wechatOpenId == Some(openid)
    ensures r.None? ==> forall u :: u in users ==> u.wechatOpenId != Some(openid)
  {
    FindFirst(users, (u: User) => u.wechatOpenId == Some(openid))
  }

  /** `findById(userId)`. */
  function FindById(users: seq<User>, id: int): (r: Option<User>)
    ensures r.Some? ==> r.value in users && r.value.id == id
    ensures r.None? ==> forall u :: u in users ==> u.id != id
  {
    FindFirst(users, (u: User) => u.id == id)
  }

  /** `findByUsername(username)`. */
  function FindByUsername(users: seq<User>, username: string): (r: Option<User>)
    ensures r.Some? ==> r.value in users && r.value.username == Some(username)
    ensures r.None? ==> forall u :: u in users ==> u.username != Some(username)
  {
    FindFirst(users, (u: User) => u.username == Some(username))
  }

  /** A new row would repeat a username or an openid already stored. */
  predicate Conflicts(users: seq<User>, draft: User)
  {
    (draft.username.Some? && FindByUsername(users, draft.username.value).Some?) ||
    (draft.wechatOpenId.Some? && FindByOpenId(users, draft.wechatOpenId.value).Some?)
  }

  /** `save(create(draft))` of a new row: the row gets the next id, unless a
      unique column is taken, in which case nothing is written. */
  function Insert(d: Directory, draft: User): (r: (Directory, Result<User>))
    ensures r.1.Ok? <==> !Conflicts(d.users, draft)
    ensures r.1.Ok? ==> r.1.value == draft.(id := d.nextId) && r.0 == Directory(d.users + [r.1.value], d.nextId + 1)
    ensures r.1.Err? ==> r.0 == d && r.1.error == OtherError(DuplicateEntry)
  {
    if Conflicts(d.users, draft) then (d, Err(OtherError(DuplicateEntry)))
    else
      var saved := draft.(id := d.nextId);
      (Directory(d.users + [saved], d.nextId + 1), Ok(saved))
  }

  /** `Repository<User>`. */
  class UserRepository {
    var users: seq<User>
    var nextId: nat

    constructor()
      ensures users == [] && nextId == 1
    {
      users := [];
      nextId := 1;
    }

    function Contents(): Directory
      reads this
    {
      Directory(users, nextId)
    }

    method Save(draft: User) returns (r: Result<User>)
      modifies this
      ensures (Contents(), r) == Insert(old(Contents()), draft)
    {
      if Conflicts(users, draft) {
        return Err(OtherError(DuplicateEntry));
      }
      var saved := draft.(id := nextId);
      users := users + [saved];
      nextId := nextId + 1;
      r := Ok(saved);
    }
  }

  // Properties.

  /** In a well-formed directory a lookup by a unique column finds the one
      row that has that value. */
  lemma LookupsFindTheRow(d: Directory, u: User)
    requires Valid(d) && u in d.users
    ensures u.wechatOpenId.Some? ==> FindByOpenId(d.users, u.wechatOpenId.value) == Some(u)
    ensures u.username.Some? ==> FindByUsername(d.users, u.username.value) == Some(u)
    ensures FindById(d.users, u.id) == Some(u)
  {
    var i :| 0 <= i < |d.users| && d.users[i] == u;
    ByIdAt(d, i);
    if u.wechatOpenId.Some? {
      ByOpenIdAt(d, i);
    }
    if u.username.Some? {
      ByUsernameAt(d, i);
    }
  }

  lemma ByIdAt(d: Directory, i: int)
    requires Valid(d) && 0 <= i < |d.users|
    ensures FindById(d.users, d.users[i].id) == Some(d.users[i])
  {
    var r := FindById(d.users, d.users[i].id);
    var k :| 0 <= k < |d.users| && d.users[k] == r.value;
    assert k == i;
  }

  lemma ByOpenIdAt(d: Directory, i: int)
    requires Valid(d) && 0 <= i < |d.users| && d.users[i].wechatOpenId.Some?
    ensures FindByOpenId(d.users, d.users[i].wechatOpenId.value) == Some(d.users[i])
  {
    var r := FindByOpenId(d.users, d.users[i].wechatOpenId.value);
    var k :| 0 <= k < |d.users| && d.users[k] == r.value;
    assert k == i;
  }

  lemma ByUsernameAt(d: Directory, i: int)
    requires Valid(d) && 0 <= i < |d.users| && d.users[i].username.Some?
    ensures FindByUsername(d.users, d.users[i].username.value) == Some(d.users[i])
  {
    var r := FindByUsername(d.users, d.users[i].username.value);
    var k :| 0 <= k < |d.users| && d.users[k] == r.value;
    assert k == i;
  }

  /** An insert either appends exactly one row, the draft under the next id,
      or changes nothing and reports a duplicate; it keeps the directory
      well formed. */
  lemma InsertAppendsOne(d: Directory, draft: User)
    requires Valid(d)
    ensures var (d2, r) := Insert(d, draft);
      Valid(d2) &&
      (r.Ok? <==> !Conflicts(d.users, draft)) &&
      (r.Ok? ==> r.value == draft.(id := d.nextId) && d2 == Directory(d.users + [r.value], d.nextId + 1)) &&
      (r.Err? ==> d2 == d && r.error == OtherError(DuplicateEntry))
  {
    var (d2, r) := Insert(d, draft);
    if r.Ok? {
      var n := |d.users|;
      forall i, j | 0 <= i < j < |d2.users| && d2.users[i].username.Some?
        ensures d2.users[i].username != d2.users[j].username
      {
        if j == n {
          assert d2.users[i] in d.users;
        }
      }
      forall i, j | 0 <= i < j < |d2.users| && d2.users[i].wechatOpenId.Some?
        ensures d2.users[i].wechatOpenId != d2.users[j].wechatOpenId
      {
        if j == n {
          assert d2.users[i] in d.users;
        }
      }
    }
  }

  /** A row appended after no row that matches is the first match. */
  lemma {:induction false} FirstMatchAppended(users: seq<User>, u: User, matches: User -> bool)
    requires FindFirst(users, matches).None? && matches(u)
    ensures FindFirst(users + [u], matches) == Some(u)
  {
    if |users| > 0 {
      assert (users + [u])[1..] == users[1..] + [u];
      FirstMatchAppended(users[1..], u, matches);
    }
  }

  /** A saved row is found again by each of its unique columns. */
  lemma SavedRowIsFound(d: Directory, draft: User)
    requires Valid(d) && !Conflicts(d.users, draft)
    ensures var (d2, r) := Insert(d, draft);
      r.Ok? && FindById(d2.users, d.nextId) == Some(r.value) &&
      (draft.wechatOpenId.Some? ==> FindByOpenId(d2.users, draft.wechatOpenId.value) == Some(r.value)) &&
      (draft.username.Some? ==> FindByUsername(d2.users, draft.username.value) == Some(r.value))
  {
    InsertAppendsOne(d, draft);
    var (d2, r) := Insert(d, draft);
    assert r.value == d2.users[|d.users|];
    LookupsFindTheRow(d2, r.value);
  }
}
