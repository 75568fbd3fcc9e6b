/** The role-assignment screen: the catalogue of roles with a `selected`
    flag per role, kept in step with the user's current roles, filtered by
    a search term, toggled one by one or all at once, and saved back as
    the user's roles. `toLowerCase` is a parameter. */
module RolesPage {
  import Js

  datatype Role = Role(id: string, name: string, description: string, permissions: seq<string>)

  datatype User = User(id: string, username: string, fullName: string, email: string,
                       currentRoles: seq<Role>)

  datatype AvailableRole = AvailableRole(id: string, name: string, description: string,
                                         permissions: seq<string>, selected: bool)

  datatype Notification = Notification(kind: string, message: string)

  function SavedMessage(fullName: string): string {
    "Роли для пользователя " + fullName + " успешно обновлены!"
  }

  /** `({ selected, ...role }) => role`. */
  function Strip(a: AvailableRole): Role {
    Role(a.id, a.name, a.description, a.permissions)
  }

  predicate IsSelected(a: AvailableRole) {
    a.selected
  }

  /** `currentRoles.some(userRole => userRole.id === id)`. */
  predicate HasRole(current: seq<Role>, id: string) {
    exists k :: 0 <= k < |current| && current[k].id == id
  }

  function MarkFrom(current: seq<Role>, a: AvailableRole): (r: AvailableRole)
    ensures r.(selected := a.selected) == a
    ensures r.selected <==> exists k :: 0 <= k < |current| && current[k].id == a.id
  {
    a.(selected := HasRole(current, a.id))
  }

  /** The selection-sync effect: every role is marked exactly when the user
      holds a role with its id; nothing else changes. */
  function Sync(available: seq<AvailableRole>, current: seq<Role>): (r: seq<AvailableRole>)
    ensures |r| == |available|
    ensures forall i :: 0 <= i < |r| ==>
      Strip(r[i]) == Strip(available[i]) && (r[i].selected <==> HasRole(current, available[i].id))
  {
    Js.Map(available, (a: AvailableRole) => MarkFrom(current, a))
  }

  /** The search: the lowercased term occurs in the lowercased name or
      description. */
  predicate MatchesTerm(a: AvailableRole, term: string, lower: string -> string) {
    Js.Includes(lower(a.name), lower(term)) || Js.Includes(lower(a.description), lower(term))
  }

  function FilteredRoles(available: seq<AvailableRole>, term: string, lower: string -> string): (r: seq<AvailableRole>)
    ensures |r| <= |available|
    ensures forall i :: 0 <= i < |r| ==> r[i] in available && MatchesTerm(r[i], term, lower)
    ensures forall i :: 0 <= i < |available| && MatchesTerm(available[i], term, lower) ==> available[i] in r
  {
    Js.Filter(available, (a: AvailableRole) => MatchesTerm(a, term, lower))
  }

  /** The result is an order-preserving sub-list, and an empty term keeps
      every role. */
  lemma FilteredRolesIsSubList(available: seq<AvailableRole>, term: string, lower: string -> string)
    ensures Js.IsSubsequence(FilteredRoles(available, term, lower), available)
    ensures lower(term) == "" ==> FilteredRoles(available, term, lower) == available
  {
    Js.FilterIsSubsequence(available, (a: AvailableRole) => MatchesTerm(a, term, lower));
    if lower(term) == "" {
      forall i | 0 <= i < |available| ensures MatchesTerm(available[i], term, lower) {
        Js.IncludesMeansInfix(lower(available[i].name), "");
      }
      Js.FilterKeepsAll(available, (a: AvailableRole) => MatchesTerm(a, term, lower));
    }
  }

  function FlipIf(a: AvailableRole, roleId: string): (r: AvailableRole)
    ensures r.(selected := a.selected) == a
    ensures r.selected <==> (a.selected != (a.id == roleId))
  {
    if a.id == roleId then a.(selected := !a.selected) else a
  }

  /** `handleRoleToggle(roleId)`: only roles with that id change, and only
      their flag. */
  function ToggleRole(available: seq<AvailableRole>, roleId: string): (r: seq<AvailableRole>)
    ensures |r| == |available|
    ensures forall i :: 0 <= i < |r| ==>
      Strip(r[i]) == Strip(available[i]) && (r[i].selected != available[i].selected <==> available[i].id == roleId)
  {
    Js.Map(available, (a: AvailableRole) => FlipIf(a, roleId))
  }

  lemma ToggleRoleTwice(available: seq<AvailableRole>, roleId: string)
    ensures ToggleRole(ToggleRole(available, roleId), roleId) == available
  {
    var twice := ToggleRole(ToggleRole(available, roleId), roleId);
    forall i | 0 <= i < |available| ensures twice[i] == available[i] {
    }
  }

  /** `handleSelectAll` and `handleDeselectAll`. */
  function SetAllSelected(available: seq<AvailableRole>, value: bool): (r: seq<AvailableRole>)
    ensures |r| == |available|
    ensures forall i :: 0 <= i < |r| ==> Strip(r[i]) == Strip(available[i]) && r[i].selected == value
  {
    Js.Map(available, (a: AvailableRole) => a.(selected := value))
  }

  lemma SetAllSelectedIdempotent(available: seq<AvailableRole>, value: bool)
    ensures SetAllSelected(SetAllSelected(available, value), value) == SetAllSelected(available, value)
  {
    var once := SetAllSelected(available, value);
    var twice := SetAllSelected(once, value);
    forall i | 0 <= i < |once| ensures twice[i] == once[i] {
    }
  }

  /** `availableRoles.filter(role => role.selected).length`. */
  function SelectedCount(available: seq<AvailableRole>): (n: nat)
    ensures n <= |available|
  {
    |Js.Filter(available, IsSelected)|
  }

  /** The roles `handleSave` stores: the selected ones, in catalogue
      order, without the flag. */
  function SelectedRoles(available: seq<AvailableRole>): (r: seq<Role>)
    ensures |r| == SelectedCount(available)
    ensures forall k :: 0 <= k < |r| ==> exists i :: 0 <= i < |available| && available[i].selected && r[k] == Strip(available[i])
    ensures forall i :: 0 <= i < |available| && available[i].selected ==> Strip(available[i]) in r
    ensures Js.IsSubsequence(r, Js.Map(available, Strip))
  {
    var kept := Js.Filter(available, IsSelected);
    var r := Js.Map(kept, Strip);
    Js.FilterIsSubsequence(available, IsSelected);
    Js.MapSubsequence(kept, available, Strip);
    assert forall k :: 0 <= k < |r| ==> r[k] == Strip(kept[k]);
    assert forall i :: 0 <= i < |available| && available[i].selected ==> available[i] in kept;
    r
  }

  predicate UniqueIds(available: seq<AvailableRole>) {
    forall i, j :: 0 <= i < |available| && 0 <= j < |available| && available[i].id == available[j].id ==> i == j
  }

  /** The save is stable: with unique ids, syncing against the roles just
      saved reproduces the catalogue exactly. */
  lemma ResyncAfterSave(available: seq<AvailableRole>)
    requires UniqueIds(available)
    ensures Sync(available, SelectedRoles(available)) == available
  {
    var saved := SelectedRoles(available);
    var r := Sync(available, saved);
    forall i | 0 <= i < |available| ensures r[i] == available[i] {
      if available[i].selected {
        var k :| 0 <= k < |saved| && saved[k] == Strip(available[i]);
        assert saved[k].id == available[i].id;
      }
    }
  }

  /** The permission chips of one row: the first three, and a `+n` chip
      only when there are more. */
  function Chips(permissions: seq<string>): (r: (seq<string>, Js.Option<string>))
    ensures |r.0| <= 3 && r.0 <= permissions
    ensures |permissions| <= 3 ==> r.0 == permissions && r.1.None?
    ensures |permissions| > 3 ==> |r.0| == 3 && r.1 == Js.Some("+" + Js.IntToString(|permissions| - 3))
  {
    var shown := Js.Slice(permissions, 0, 3);
    (shown, if |permissions| > 3 then Js.Some("+" + Js.IntToString(|permissions| - 3)) else Js.None)
  }

  class RolesScreen {
    var user: User
    var availableRoles: seq<AvailableRole>
    var searchTerm: string
    var notification: Js.Option<Notification>

    constructor (user: User, availableRoles: seq<AvailableRole>)
      ensures this.user == user && this.availableRoles == availableRoles
      ensures searchTerm == "" && notification == Js.None
    {
      this.user := user;
      this.availableRoles := availableRoles;
      searchTerm := "";
      notification := Js.None;
    }

    /** The effect on `user.currentRoles`. */
    method SyncSelection()
      modifies this`availableRoles
      ensures availableRoles == Sync(old(availableRoles), user.currentRoles)
    {
      availableRoles := Sync(availableRoles, user.currentRoles);
    }

    method SetSearchTerm(term: string)
      modifies this`searchTerm
      ensures searchTerm == term
    {
      searchTerm := term;
    }

    method RoleToggle(roleId: string)
      modifies this`availableRoles
      ensures availableRoles == ToggleRole(old(availableRoles), roleId)
    {
      availableRoles := ToggleRole(availableRoles, roleId);
    }

    method SelectAll()
      modifies this`availableRoles
      ensures availableRoles == SetAllSelected(old(availableRoles), true)
    {
      availableRoles := SetAllSelected(availableRoles, true);
    }

    method DeselectAll()
      modifies this`availableRoles
      ensures availableRoles == SetAllSelected(old(availableRoles), false)
    {
      availableRoles := SetAllSelected(availableRoles, false);
    }

    /** `handleSave`. */
    method Save()
      modifies this`user, this`notification
      ensures user == old(user).(currentRoles := SelectedRoles(availableRoles))
      ensures |user.currentRoles| == SelectedCount(availableRoles)
      ensures notification == Js.Some(Notification("success", SavedMessage(old(user).fullName)))
    {
      var selectedRoles := SelectedRoles(availableRoles);
      notification := Js.Some(Notification("success", SavedMessage(user.fullName)));
      user := user.(currentRoles := selectedRoles);
    }
  }

  /** Saving gives `user.currentRoles` a new array, so the sync effect
      runs again; with unique ids it leaves the catalogue as it was. */
  method SaveAndResync(screen: RolesScreen)
    requires UniqueIds(screen.availableRoles)
    modifies screen
    ensures screen.availableRoles == old(screen.availableRoles)
  {
    screen.Save();
    ResyncAfterSave(screen.availableRoles);
    screen.SyncSelection();
  }
}
