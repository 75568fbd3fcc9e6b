/** The users table: five users per page, a delete confirmation, and an
    activation switch per row. */
module UsersTable {
  import Js
  import Paging

  datatype User = User(id: int, username: string, active: bool, roles: seq<string>)

  const RowsPerPage := 5

  function DeletedMessage(username: string): string {
    "Пользователь " + username + " удален"
  }

  /** The word for a user's status after a switch. */
  function StatusWord(nowActive: bool): string {
    if nowActive then "активирован" else "деактивирован"
  }

  predicate HasId(u: User, id: int) {
    u.id == id
  }

  /** The users after `toggleActive(id)`: only users with that id change,
      and only their `active` flag. */
  function ToggleActiveIn(users: seq<User>, id: int): (r: seq<User>)
    ensures |r| == |users|
    ensures forall i :: 0 <= i < |r| ==>
      && r[i].id == users[i].id && r[i].username == users[i].username && r[i].roles == users[i].roles
      && (r[i].active != users[i].active <==> users[i].id == id)
  {
    Js.Map(users, (u: User) => if u.id == id then u.(active := !u.active) else u)
  }

  /** An id nobody has changes nothing. */
  lemma ToggleAbsentId(users: seq<User>, id: int)
    requires forall i :: 0 <= i < |users| ==> users[i].id != id
    ensures ToggleActiveIn(users, id) == users
  {
    var r := ToggleActiveIn(users, id);
    forall i | 0 <= i < |users| ensures r[i] == users[i] {
    }
  }

  /** The notification of `toggleActive(id)`, built from the first user
      with that id as it was before the switch; none when no user has it. */
  function ToggleNotice(users: seq<User>, id: int): (r: Js.Option<string>)
    ensures r.None? <==> forall i :: 0 <= i < |users| ==> users[i].id != id
  {
    var found := Js.Find(users, (u: User) => HasId(u, id));
    if found.Some? then
      Js.Some("Пользователь " + found.value.username + " " + (if found.value.active then "деактивирован" else "активирован"))
    else Js.None
  }

  /** Read against the list after the switch, the notice names the user's
      new status: built from the old flag, it is still the right word. */
  lemma NoticeNamesNewStatus(users: seq<User>, id: int)
    requires exists i :: 0 <= i < |users| && users[i].id == id
    ensures var k := Js.FindIndex(users, (u: User) => HasId(u, id));
      0 <= k < |users|
      && ToggleNotice(users, id) ==
         Js.Some("Пользователь " + users[k].username + " " + StatusWord(ToggleActiveIn(users, id)[k].active))
  {
    var k := Js.FindIndex(users, (u: User) => HasId(u, id));
    assert Js.Find(users, (u: User) => HasId(u, id)) == Js.Some(users[k]);
  }

  /** `users.filter(u => u.id !== id)`. */
  function RemoveUser(users: seq<User>, id: int): (r: seq<User>)
    ensures forall i :: 0 <= i < |r| ==> r[i].id != id
    ensures forall i :: 0 <= i < |users| && users[i].id != id ==> users[i] in r
  {
    Js.Filter(users, (u: User) => u.id != id)
  }

  lemma RemoveUserKeepsOrder(users: seq<User>, id: int)
    ensures Js.IsSubsequence(RemoveUser(users, id), users)
    ensures forall u: User :: u.id != id ==> multiset(RemoveUser(users, id))[u] == multiset(users)[u]
  {
    Js.FilterIsSubsequence(users, (u: User) => u.id != id);
    Js.FilterCount(users, (u: User) => u.id != id);
  }

  /** `renderRoles`: two roles and an ellipsis when there are more. */
  function RenderRoles(roles: seq<string>): (r: (seq<string>, bool))
    ensures |r.0| <= 2 && r.0 <= roles
    ensures r.1 <==> |roles| > 2
    ensures !r.1 ==> r.0 == roles
    ensures r.1 ==> |r.0| == 2
  {
    Paging.Preview(roles, 2)
  }

  class UsersScreen {
    var users: seq<User>
    var page: int
    var deleteModalOpen: bool
    var selectedUser: Js.Option<User>
    var notification: string

    constructor (users: seq<User>)
      ensures this.users == users && page == 1 && !deleteModalOpen
      ensures selectedUser == Js.None && notification == ""
    {
      this.users := users;
      page := 1;
      deleteModalOpen := false;
      selectedUser := Js.None;
      notification := "";
    }

    function TotalPages(): nat
      reads this
    {
      Paging.TotalPages(|users|, RowsPerPage)
    }

    /** `currentUsers`: at most five. */
    function CurrentUsers(): (r: seq<User>)
      reads this
      ensures |r| <= RowsPerPage
    {
      Paging.PageSlice(users, page, RowsPerPage)
    }

    method SetPage(p: int)
      modifies this`page
      ensures page == p
    {
      page := p;
    }

    /** `handleDelete(user)`: only remembers the user and opens the
        dialog. */
    method AskDelete(user: User)
      modifies this`selectedUser, this`deleteModalOpen
      ensures selectedUser == Js.Some(user) && deleteModalOpen
    {
      selectedUser := Js.Some(user);
      deleteModalOpen := true;
    }

    method CancelDelete()
      modifies this`deleteModalOpen
      ensures !deleteModalOpen
    {
      deleteModalOpen := false;
    }

    /** `confirmDelete`: nothing without a selection; the selection itself
        is kept. */
    method ConfirmDelete()
      modifies this`users, this`notification, this`deleteModalOpen
      ensures old(selectedUser).None? ==>
        users == old(users) && notification == old(notification) && deleteModalOpen == old(deleteModalOpen)
      ensures old(selectedUser).Some? ==>
        && users == RemoveUser(old(users), selectedUser.value.id)
        && notification == DeletedMessage(selectedUser.value.username)
        && !deleteModalOpen
    {
      if selectedUser.Some? {
        users := RemoveUser(users, selectedUser.value.id);
        notification := DeletedMessage(selectedUser.value.username);
        deleteModalOpen := false;
      }
    }

    /** `toggleActive(id)`. */
    method ToggleActive(id: int)
      modifies this`users, this`notification
      ensures ToggleNotice(old(users), id).None? ==> users == old(users) && notification == old(notification)
      ensures ToggleNotice(old(users), id).Some? ==>
        users == ToggleActiveIn(old(users), id) && notification == ToggleNotice(old(users), id).value
    {
      var notice := ToggleNotice(users, id);
      if notice.Some? {
        users := ToggleActiveIn(users, id);
        notification := notice.value;
      }
    }
  }
}
