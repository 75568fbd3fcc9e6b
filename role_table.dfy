/** The roles table: five roles per page, a delete dialog and an edit
    dialog that either updates the selected role or creates a new one. */
module RoleTable {
  import Js
  import Paging

  datatype Role = Role(id: int, name: string, entities: seq<string>, users: int)

  /** The edit dialog's form. */
  datatype Form = Form(name: string, entities: seq<string>)

  const RowsPerPage := 5
  const EmptyForm := Form("", [])

  function DeletedMessage(name: string): string {
    "Роль \"" + name + "\" удалена"
  }

  function UpdatedMessage(name: string): string {
    "Роль \"" + name + "\" обновлена"
  }

  function CreatedMessage(name: string): string {
    "Роль \"" + name + "\" создана"
  }

  /** `{ ...role, ...formData }` for the roles carrying the selected id:
      name and entities come from the form, id and users stay. */
  function UpdateRoles(roles: seq<Role>, id: int, form: Form): (r: seq<Role>)
    ensures |r| == |roles|
    ensures forall i :: 0 <= i < |r| ==> r[i].id == roles[i].id && r[i].users == roles[i].users
    ensures forall i :: 0 <= i < |r| && roles[i].id == id ==>
      r[i].name == form.name && r[i].entities == form.entities
    ensures forall i :: 0 <= i < |r| && roles[i].id != id ==> r[i] == roles[i]
  {
    Js.Map(roles, (role: Role) => if role.id == id then role.(name := form.name, entities := form.entities) else role)
  }

  /** Saving the same form again changes nothing more. */
  lemma UpdateRolesIdempotent(roles: seq<Role>, id: int, form: Form)
    ensures UpdateRoles(UpdateRoles(roles, id, form), id, form) == UpdateRoles(roles, id, form)
  {
    var once := UpdateRoles(roles, id, form);
    var twice := UpdateRoles(once, id, form);
    forall i | 0 <= i < |once| ensures twice[i] == once[i] {
    }
  }

  /** The role a save creates: the next id by count, and no users. */
  function NewRole(roles: seq<Role>, form: Form): (r: Role)
    ensures r.id == |roles| + 1 && r.users == 0
    ensures r.name == form.name && r.entities == form.entities
  {
    Role(|roles| + 1, form.name, form.entities, 0)
  }

  /** `roles.filter(role => role.id !== id)`. */
  function RemoveRole(roles: seq<Role>, id: int): (r: seq<Role>)
    ensures forall i :: 0 <= i < |r| ==> r[i].id != id
    ensures forall i :: 0 <= i < |roles| && roles[i].id != id ==> roles[i] in r
  {
    Js.Filter(roles, (role: Role) => role.id != id)
  }

  lemma RemoveRoleKeepsOrder(roles: seq<Role>, id: int)
    ensures Js.IsSubsequence(RemoveRole(roles, id), roles)
    ensures forall role: Role :: role.id != id ==> multiset(RemoveRole(roles, id))[role] == multiset(roles)[role]
  {
    Js.FilterIsSubsequence(roles, (role: Role) => role.id != id);
    Js.FilterCount(roles, (role: Role) => role.id != id);
  }

  /** Ids by count are not unique: with roles 1, 2, 3, deleting 2 and
      creating a role gives a second role 3. */
  lemma CreatedIdCanRepeat(a: Role, b: Role, c: Role, form: Form)
    requires a.id == 1 && b.id == 2 && c.id == 3
    ensures var left := RemoveRole([a, b, c], 2);
      left == [a, c] && NewRole(left, form).id == c.id
  {
    var p := (role: Role) => role.id != 2;
    assert [a, b, c][1..] == [b, c] && [b, c][1..] == [c] && [c][1..] == [];
    assert Js.Filter([c], p) == [c];
    assert Js.Filter([b, c], p) == [c];
    assert Js.Filter([a, b, c], p) == [a] + [c];
  }

  /** The save button: disabled while the trimmed name is empty. */
  function SaveEnabled(form: Form): (r: bool)
    ensures r <==> !Js.Blank(form.name)
  {
    !Js.Blank(form.name)
  }

  /** The delete button: `selectedRole?.users ? selectedRole.users > 0 : false`. */
  function DeleteDisabled(selected: Js.Option<Role>): (r: bool)
    ensures r <==> selected.Some? && selected.value.users > 0
  {
    if selected.Some? && selected.value.users != 0 then selected.value.users > 0 else false
  }

  /** `renderEntities`: three entities and an ellipsis when there are more. */
  function RenderEntities(entities: seq<string>): (r: (seq<string>, bool))
    ensures |r.0| <= 3 && r.0 <= entities
    ensures r.1 <==> |entities| > 3
    ensures !r.1 ==> r.0 == entities
    ensures r.1 ==> |r.0| == 3
  {
    Paging.Preview(entities, 3)
  }

  class RolesTable {
    var roles: seq<Role>
    var page: int
    var deleteModalOpen: bool
    var editModalOpen: bool
    var selectedRole: Js.Option<Role>
    var notification: string
    var formData: Form

    constructor (roles: seq<Role>)
      ensures this.roles == roles && page == 1
      ensures !deleteModalOpen && !editModalOpen && selectedRole == Js.None
      ensures notification == "" && formData == EmptyForm
    {
      this.roles := roles;
      page := 1;
      deleteModalOpen := false;
      editModalOpen := false;
      selectedRole := Js.None;
      notification := "";
      formData := EmptyForm;
    }

    function TotalPages(): nat
      reads this
    {
      Paging.TotalPages(|roles|, RowsPerPage)
    }

    /** `displayedRoles`: at most five. */
    function DisplayedRoles(): (r: seq<Role>)
      reads this
      ensures |r| <= RowsPerPage
    {
      Paging.PageSlice(roles, page, RowsPerPage)
    }

    /** A page button. */
    method SetPage(p: int)
      modifies this`page
      ensures page == p
    {
      page := p;
    }

    method OpenDelete(role: Role)
      modifies this`selectedRole, this`deleteModalOpen
      ensures selectedRole == Js.Some(role) && deleteModalOpen
    {
      selectedRole := Js.Some(role);
      deleteModalOpen := true;
    }

    /** `handleOpenEdit(role)`: a copy of the role's name and entities, or an
        empty form for a new role. */
    method OpenEdit(role: Js.Option<Role>)
      modifies this`selectedRole, this`formData, this`editModalOpen
      ensures selectedRole == role && editModalOpen
      ensures role.Some? ==> formData == Form(role.value.name, role.value.entities)
      ensures role.None? ==> formData == EmptyForm
    {
      if role.Some? {
        selectedRole := role;
        formData := Form(role.value.name, role.value.entities);
      } else {
        selectedRole := Js.None;
        formData := EmptyForm;
      }
      editModalOpen := true;
    }

    method SetFormName(name: string)
      modifies this`formData
      ensures formData == old(formData).(name := name)
    {
      formData := formData.(name := name);
    }

    method SetFormEntities(entities: seq<string>)
      modifies this`formData
      ensures formData == old(formData).(entities := entities)
    {
      formData := formData.(entities := entities);
    }

    method CloseModals()
      modifies this`deleteModalOpen, this`editModalOpen, this`selectedRole
      ensures !deleteModalOpen && !editModalOpen && selectedRole == Js.None
    {
      deleteModalOpen := false;
      editModalOpen := false;
      selectedRole := Js.None;
    }

    /** `handleDelete`: nothing without a selection. */
    method Delete()
      modifies this`roles, this`notification, this`deleteModalOpen, this`editModalOpen, this`selectedRole
      ensures old(selectedRole).None? ==>
        && roles == old(roles) && notification == old(notification)
        && deleteModalOpen == old(deleteModalOpen) && editModalOpen == old(editModalOpen)
        && selectedRole == old(selectedRole)
      ensures old(selectedRole).Some? ==>
        && roles == RemoveRole(old(roles), old(selectedRole).value.id)
        && notification == DeletedMessage(old(selectedRole).value.name)
        && !deleteModalOpen && !editModalOpen && selectedRole == Js.None
    {
      if selectedRole.Some? {
        var sel := selectedRole.value;
        roles := RemoveRole(roles, sel.id);
        notification := DeletedMessage(sel.name);
        CloseModals();
      }
    }

    /** `handleSave`: update the selected role in place, or append a new
        one. */
    method Save()
      modifies this`roles, this`notification, this`deleteModalOpen, this`editModalOpen, this`selectedRole
      ensures old(selectedRole).Some? ==>
        roles == UpdateRoles(old(roles), old(selectedRole).value.id, formData)
        && notification == UpdatedMessage(formData.name)
      ensures old(selectedRole).None? ==>
        roles == old(roles) + [NewRole(old(roles), formData)]
        && notification == CreatedMessage(formData.name)
      ensures !deleteModalOpen && !editModalOpen && selectedRole == Js.None
    {
      if selectedRole.Some? {
        roles := UpdateRoles(roles, selectedRole.value.id, formData);
        notification := UpdatedMessage(formData.name);
      } else {
        roles := roles + [NewRole(roles, formData)];
        notification := CreatedMessage(formData.name);
      }
      CloseModals();
    }
  }
}
