/** The role permission editor: a role holding entities, each holding
    permission flags; handlers that flip one flag or all flags of an
    entity, add and delete entities, fold and unfold them, and save or
    cancel the edit; and the per-entity summary. The module-level
    `defaultPermissions` array, which the add dialog's switches change in
    place, is an `array` shared by every editor that is given it. */
module RoleEditPage {
  import Js

  datatype Permission = Permission(id: int, name: string, description: string, checked: bool)

  datatype Entity = Entity(id: int, name: string, permissions: seq<Permission>)

  datatype Role = Role(id: int, name: string, description: string, entities: seq<Entity>,
                       userCount: int, isDefault: Js.Option<bool>)

  /** The state of the delete confirmation dialog. */
  datatype DeleteModal = DeleteModal(open: bool, entityId: Js.Option<int>, entityName: string)

  const ClosedModal := DeleteModal(false, Js.None, "")

  const SavedMessage := "Изменения роли сохранены"
  const CancelledMessage := "Изменения отменены"
  const NameMissingMessage := "Введите название сущности"
  const DeletedMessage := "Сущность удалена"

  function AddedMessage(name: string): string {
    "Сущность \"" + name + "\" добавлена"
  }

  /** The declared contents of `defaultPermissions`. */
  const DeclaredDefaults: seq<Permission> := [
    Permission(1, "Просмотр", "Просмотр записей", false),
    Permission(2, "Создание", "Создание новых записей", false),
    Permission(3, "Редактирование", "Редактирование записей", false),
    Permission(4, "Удаление", "Удаление записей", false)
  ]

  /** Two permissions agree on everything but the flag. */
  predicate SameButChecked(a: Permission, b: Permission) {
    a.id == b.id && a.name == b.name && a.description == b.description
  }

  /** Two entity lists agree on everything but permission flags. */
  predicate SameShape(a: seq<Entity>, b: seq<Entity>) {
    && |a| == |b|
    && (forall i :: 0 <= i < |a| ==>
          a[i].id == b[i].id && a[i].name == b[i].name
          && |a[i].permissions| == |b[i].permissions|)
    && (forall i, j :: 0 <= i < |a| && 0 <= j < |a[i].permissions| && j < |b[i].permissions| ==>
          SameButChecked(a[i].permissions[j], b[i].permissions[j]))
  }

  function Flip(p: Permission): (r: Permission)
    ensures SameButChecked(r, p) && r.checked == !p.checked
  {
    p.(checked := !p.checked)
  }

  // ---------------------------------------------------------------------
  // togglePermission

  function FlipIn(e: Entity, permissionId: int): (r: Entity)
    ensures r.id == e.id && r.name == e.name && |r.permissions| == |e.permissions|
    ensures forall j :: 0 <= j < |e.permissions| ==>
      SameButChecked(r.permissions[j], e.permissions[j])
      && (r.permissions[j].checked <==> (e.permissions[j].checked != (e.permissions[j].id == permissionId)))
  {
    e.(permissions := Js.Map(e.permissions, (p: Permission) => if p.id == permissionId then Flip(p) else p))
  }

  /** The entity list after `togglePermission(entityId, permissionId)`: a
      flag changes exactly for the permission `permissionId` of an entity
      `entityId`. */
  function TogglePermission(es: seq<Entity>, entityId: int, permissionId: int): (r: seq<Entity>)
    ensures SameShape(r, es)
    ensures forall i, j :: 0 <= i < |es| && 0 <= j < |es[i].permissions| ==>
      (r[i].permissions[j].checked != es[i].permissions[j].checked <==>
         es[i].id == entityId && es[i].permissions[j].id == permissionId)
  {
    Js.Map(es, (e: Entity) => if e.id == entityId then FlipIn(e, permissionId) else e)
  }

  /** Two entity lists of the same shape and the same flags are equal. */
  lemma SameFlagsSameEntities(a: seq<Entity>, b: seq<Entity>)
    requires SameShape(a, b)
    requires forall i, j :: 0 <= i < |a| && 0 <= j < |a[i].permissions| ==>
      a[i].permissions[j].checked == b[i].permissions[j].checked
    ensures a == b
  {
    forall i | 0 <= i < |a| ensures a[i] == b[i] {
      assert a[i].permissions == b[i].permissions;
    }
  }

  /** Toggling the same permission twice restores the entities. */
  lemma TogglePermissionTwice(es: seq<Entity>, entityId: int, permissionId: int)
    ensures TogglePermission(TogglePermission(es, entityId, permissionId), entityId, permissionId) == es
  {
    var once := TogglePermission(es, entityId, permissionId);
    var twice := TogglePermission(once, entityId, permissionId);
    forall i, j | 0 <= i < |twice| && 0 <= j < |twice[i].permissions|
      ensures twice[i].permissions[j].checked == es[i].permissions[j].checked
    {
      assert once[i].id == es[i].id && once[i].permissions[j].id == es[i].permissions[j].id;
    }
    SameFlagsSameEntities(twice, es);
  }

  // ---------------------------------------------------------------------
  // toggleAllPermissions

  /** `permissions.every(p => p.checked)`. */
  predicate AllChecked(ps: seq<Permission>) {
    forall j :: 0 <= j < |ps| ==> ps[j].checked
  }

  function SetAll(e: Entity, value: bool): (r: Entity)
    ensures r.id == e.id && r.name == e.name && |r.permissions| == |e.permissions|
    ensures forall j :: 0 <= j < |e.permissions| ==>
      SameButChecked(r.permissions[j], e.permissions[j]) && r.permissions[j].checked == value
  {
    e.(permissions := Js.Map(e.permissions, (p: Permission) => p.(checked := value)))
  }

  /** The entity list after `toggleAllPermissions(entityId)`: every flag of
      an entity `entityId` becomes the negation of "all were checked", and
      other entities are untouched. */
  function ToggleAll(es: seq<Entity>, entityId: int): (r: seq<Entity>)
    ensures SameShape(r, es)
    ensures forall i, j :: 0 <= i < |es| && es[i].id == entityId && 0 <= j < |r[i].permissions| ==>
      r[i].permissions[j].checked == !AllChecked(es[i].permissions)
    ensures forall i :: 0 <= i < |es| && es[i].id != entityId ==> r[i] == es[i]
  {
    Js.Map(es, (e: Entity) => if e.id == entityId then SetAll(e, !AllChecked(e.permissions)) else e)
  }

  /** The button toggles between "all on" and "all off": after one click,
      a non-empty entity has all its flags set exactly when they were not
      all set before; after two clicks, all flags equal "all were set
      before". */
  lemma ToggleAllTwice(es: seq<Entity>, entityId: int, i: nat)
    requires i < |es| && es[i].id == entityId && es[i].permissions != []
    ensures AllChecked(ToggleAll(es, entityId)[i].permissions) <==> !AllChecked(es[i].permissions)
    ensures var twice := ToggleAll(ToggleAll(es, entityId), entityId);
      forall j :: 0 <= j < |twice[i].permissions| ==>
        twice[i].permissions[j].checked == AllChecked(es[i].permissions)
  {
    var once := ToggleAll(es, entityId);
    assert once[i].permissions[0].checked == !AllChecked(es[i].permissions);
    assert once[i].id == entityId;
  }

  // ---------------------------------------------------------------------
  // Entities and the fold-out list

  /** `entities.filter(entity => entity.id !== entityId)`. */
  function RemoveEntity(es: seq<Entity>, entityId: int): (r: seq<Entity>)
    ensures forall i :: 0 <= i < |r| ==> r[i].id != entityId
    ensures forall i :: 0 <= i < |es| && es[i].id != entityId ==> es[i] in r
  {
    Js.Filter(es, (e: Entity) => e.id != entityId)
  }

  /** Deleting keeps the other entities in their relative order, and
      deleting an id that is not there changes nothing. */
  lemma RemoveEntityKeepsOrder(es: seq<Entity>, entityId: int)
    ensures Js.IsSubsequence(RemoveEntity(es, entityId), es)
    ensures (forall i :: 0 <= i < |es| ==> es[i].id != entityId) ==> RemoveEntity(es, entityId) == es
    ensures forall e: Entity :: e.id != entityId ==> multiset(RemoveEntity(es, entityId))[e] == multiset(es)[e]
  {
    Js.FilterIsSubsequence(es, (e: Entity) => e.id != entityId);
    Js.FilterCount(es, (e: Entity) => e.id != entityId);
    if forall i :: 0 <= i < |es| ==> es[i].id != entityId {
      Js.FilterKeepsAll(es, (e: Entity) => e.id != entityId);
    }
  }

  // ---------------------------------------------------------------------
  // The summary table

  datatype Summary = Summary(total: nat, allowed: nat, denied: int, percentage: int)

  /** `Math.round(allowed / total * 100)` for `total > 0`, else `0`, in
      exact arithmetic: the nearest integer, halves rounded up. */
  function Percentage(allowed: nat, total: nat): (r: int)
    ensures total == 0 ==> r == 0
    ensures total > 0 ==> 2 * total * r <= 200 * allowed + total < 2 * total * (r + 1)
  {
    if total > 0 then (200 * allowed + total) / (2 * total) else 0
  }

  /** A share of at most the whole is between 0 and 100 per cent; all of
      it is 100 and none of it 0. */
  lemma PercentageBounds(allowed: nat, total: nat)
    requires allowed <= total
    ensures 0 <= Percentage(allowed, total) <= 100
    ensures total > 0 && allowed == total ==> Percentage(allowed, total) == 100
    ensures allowed == 0 ==> Percentage(allowed, total) == 0
  {
    var r := Percentage(allowed, total);
    if total > 0 {
      var k := 2 * total;
      assert k * r < k * 101;
      CancelFactor(k, r, 101);
      assert k * 0 < k * (r + 1);
      CancelFactor(k, 0, r + 1);
      if allowed == total {
        assert k * 100 < k * (r + 1);
        CancelFactor(k, 100, r + 1);
      }
      if allowed == 0 {
        assert k * r < k * 1;
        CancelFactor(k, r, 1);
      }
    }
  }

  /** A positive factor can be cancelled from a strict inequality. */
  lemma CancelFactor(k: int, x: int, y: int)
    requires k > 0 && k * x < k * y
    ensures x < y
  {
    assert k * y - k * x == k * (y - x);
  }

  /** `entity.permissions.filter(p => p.checked).length`. */
  function Allowed(ps: seq<Permission>): (r: nat)
    ensures r <= |ps|
  {
    |Js.Filter(ps, (p: Permission) => p.checked)|
  }

  /** One row of the summary. */
  function SummaryOf(e: Entity): (s: Summary)
    ensures s.total == |e.permissions| && s.allowed <= s.total
    ensures s.denied == s.total - s.allowed && s.denied >= 0
    ensures 0 <= s.percentage <= 100
    ensures s.total == 0 ==> s.percentage == 0
    ensures s.total > 0 && s.allowed == s.total ==> s.percentage == 100
  {
    var total := |e.permissions|;
    var allowed := Allowed(e.permissions);
    PercentageBounds(allowed, total);
    Summary(total, allowed, total - allowed, Percentage(allowed, total))
  }

  /** Every flag set means every permission is counted as allowed. */
  lemma {:induction false} AllCheckedAllowed(ps: seq<Permission>)
    requires AllChecked(ps)
    ensures Allowed(ps) == |ps|
  {
    Js.FilterKeepsAll(ps, (p: Permission) => p.checked);
  }

  // ---------------------------------------------------------------------
  // The page

  /** `mockRoles.find(r => r.id === roleId) || mockRoles[0]`; `None` for
      the `NaN` that `parseInt` gives on a non-numeric id. */
  function InitialRole(roles: seq<Role>, roleId: Js.Option<int>): (r: Role)
    requires roles != []
    ensures r in roles
    ensures roleId.Some? && (exists i :: 0 <= i < |roles| && roles[i].id == roleId.value) ==>
      r.id == roleId.value
      && exists k :: 0 <= k < |roles| && roles[k] == r && forall j :: 0 <= j < k ==> roles[j].id != roleId.value
    ensures roleId.None? || (forall i :: 0 <= i < |roles| ==> roles[i].id != roleId.value) ==>
      r == roles[0]
  {
    if roleId.None? then roles[0]
    else Js.Find(roles, (x: Role) => x.id == roleId.value).GetOr(roles[0])
  }

  class RoleEditor {
    var originalRole: Role
    var role: Role
    var isEditing: bool
    var notification: string
    var showAddEntity: bool
    var newEntityName: string
    var expandedEntities: seq<int>
    var deleteModal: DeleteModal
    /** The module-level `defaultPermissions`, shared and written in
        place. */
    const defaults: array<Permission>

    constructor (roles: seq<Role>, roleId: Js.Option<int>, defaults: array<Permission>)
      requires roles != []
      ensures originalRole == InitialRole(roles, roleId) && role == originalRole
      ensures isEditing && notification == "" && !showAddEntity && newEntityName == ""
      ensures expandedEntities == Js.Map(role.entities, (e: Entity) => e.id)
      ensures deleteModal == ClosedModal && this.defaults == defaults
    {
      originalRole := InitialRole(roles, roleId);
      role := InitialRole(roles, roleId);
      isEditing := true;
      notification := "";
      showAddEntity := false;
      newEntityName := "";
      expandedEntities := Js.Map(InitialRole(roles, roleId).entities, (e: Entity) => e.id);
      deleteModal := ClosedModal;
      this.defaults := defaults;
    }

    /** `handleSave`. */
    method Save()
      modifies this`originalRole, this`isEditing, this`notification
      ensures originalRole == role && !isEditing && notification == SavedMessage
    {
      originalRole := role;
      isEditing := false;
      notification := SavedMessage;
    }

    /** `handleCancel`. */
    method Cancel()
      modifies this`role, this`isEditing, this`notification
      ensures role == originalRole && !isEditing && notification == CancelledMessage
    {
      role := originalRole;
      isEditing := false;
      notification := CancelledMessage;
    }

    method SetRoleName(value: string)
      modifies this`role
      ensures role == old(role).(name := value)
    {
      role := role.(name := value);
    }

    method SetRoleDescription(value: string)
      modifies this`role
      ensures role == old(role).(description := value)
    {
      role := role.(description := value);
    }

    method TogglePermissionOf(entityId: int, permissionId: int)
      modifies this`role
      ensures role == old(role).(entities := TogglePermission(old(role.entities), entityId, permissionId))
    {
      role := role.(entities := TogglePermission(role.entities, entityId, permissionId));
    }

    method ToggleAllPermissions(entityId: int)
      modifies this`role
      ensures role == old(role).(entities := ToggleAll(old(role.entities), entityId))
    {
      role := role.(entities := ToggleAll(role.entities, entityId));
    }

    method SetNewEntityName(value: string)
      modifies this`newEntityName
      ensures newEntityName == value
    {
      newEntityName := value;
    }

    method OpenAddEntity()
      modifies this`showAddEntity
      ensures showAddEntity
    {
      showAddEntity := true;
    }

    /** The dialog's close button, and its Cancel button. */
    method CloseAddEntity()
      modifies this`showAddEntity
      ensures !showAddEntity
    {
      showAddEntity := false;
    }

    /** `handleAddEntity`, with `Date.now()` as `now`. A blank name only
        sets the prompt; otherwise one entity is appended, its permissions
        a copy of what `defaults` holds at this moment. */
    method AddEntity(now: int)
      modifies this`role, this`expandedEntities, this`newEntityName, this`showAddEntity, this`notification
      ensures Js.Blank(old(newEntityName)) ==>
        && role == old(role) && expandedEntities == old(expandedEntities)
        && newEntityName == old(newEntityName) && showAddEntity == old(showAddEntity)
        && notification == NameMissingMessage
      ensures !Js.Blank(old(newEntityName)) ==>
        && role == old(role).(entities := old(role.entities) + [Entity(now, old(newEntityName), defaults[..])])
        && expandedEntities == old(expandedEntities) + [now]
        && newEntityName == "" && !showAddEntity
        && notification == AddedMessage(old(newEntityName))
    {
      if Js.Blank(newEntityName) {
        notification := NameMissingMessage;
        return;
      }
      var newEntity := Entity(now, newEntityName, defaults[..]);
      role := role.(entities := role.entities + [newEntity]);
      expandedEntities := expandedEntities + [newEntity.id];
      notification := AddedMessage(newEntityName);
      newEntityName := "";
      showAddEntity := false;
    }

    /** A switch in the add dialog: the first default with that id flips,
        in the shared array itself. */
    method ToggleDefault(permissionId: int)
      modifies defaults
      ensures var k := Js.FindIndex(old(defaults[..]), (p: Permission) => p.id == permissionId);
        defaults[..] == if k == -1 then old(defaults[..]) else old(defaults[..])[k := Flip(old(defaults[k]))]
    {
      var index := Js.FindIndex(defaults[..], (p: Permission) => p.id == permissionId);
      if index != -1 {
        defaults[index] := Flip(defaults[index]);
      }
    }

    method OpenDeleteModal(e: Entity)
      modifies this`deleteModal
      ensures deleteModal == DeleteModal(true, Js.Some(e.id), e.name)
    {
      deleteModal := DeleteModal(true, Js.Some(e.id), e.name);
    }

    method CloseDeleteModal()
      modifies this`deleteModal
      ensures deleteModal == ClosedModal
    {
      deleteModal := ClosedModal;
    }

    /** `handleDeleteEntity(entityId)`. */
    method DeleteEntity(entityId: int)
      modifies this`role, this`expandedEntities, this`deleteModal, this`notification
      ensures role == old(role).(entities := RemoveEntity(old(role.entities), entityId))
      ensures expandedEntities == Js.Filter(old(expandedEntities), (x: int) => x != entityId)
      ensures deleteModal == ClosedModal && notification == DeletedMessage
    {
      role := role.(entities := RemoveEntity(role.entities, entityId));
      expandedEntities := Js.Filter(expandedEntities, (x: int) => x != entityId);
      deleteModal := ClosedModal;
      notification := DeletedMessage;
    }

    /** The dialog's confirm button: `entityId && handleDeleteEntity(...)`,
        so neither `null` nor `0` deletes anything. */
    method ConfirmDelete()
      modifies this`role, this`expandedEntities, this`deleteModal, this`notification
      ensures old(deleteModal.entityId).None? || old(deleteModal.entityId) == Js.Some(0) ==>
        role == old(role) && expandedEntities == old(expandedEntities)
        && deleteModal == old(deleteModal) && notification == old(notification)
      ensures old(deleteModal.entityId).Some? && old(deleteModal.entityId) != Js.Some(0) ==>
        var id := old(deleteModal.entityId.value);
        && role == old(role).(entities := RemoveEntity(old(role.entities), id))
        && expandedEntities == Js.Filter(old(expandedEntities), (x: int) => x != id)
        && deleteModal == ClosedModal && notification == DeletedMessage
    {
      if deleteModal.entityId.Some? && deleteModal.entityId.value != 0 {
        DeleteEntity(deleteModal.entityId.value);
      }
    }

    method ToggleEntityExpand(entityId: int)
      modifies this`expandedEntities
      ensures expandedEntities == Js.ToggleMember(old(expandedEntities), entityId)
    {
      expandedEntities := Js.ToggleMember(expandedEntities, entityId);
    }
  }

  /** Saving and then cancelling keeps what was saved, and a second cancel
      changes nothing more. */
  method SaveThenCancel(ed: RoleEditor)
    modifies ed
    ensures ed.role == old(ed.role) && ed.originalRole == old(ed.role)
  {
    ed.Save();
    ed.Cancel();
    var afterFirst := ed.role;
    ed.Cancel();
    assert ed.role == afterFirst;
  }

  /** A switch flipped in the add dialog is not undone when the dialog
      closes: the next entity added starts with that permission on, not
      with the declared all-off defaults. */
  method SwitchedDefaultReachesNewEntity(ed: RoleEditor, now: int)
    requires ed.defaults[..] == DeclaredDefaults && !Js.Blank(ed.newEntityName)
    modifies ed, ed.defaults
    ensures |ed.role.entities| > 0
      && var added := ed.role.entities[|ed.role.entities| - 1];
         |added.permissions| == 4 && added.permissions[0].checked && !DeclaredDefaults[0].checked
  {
    assert DeclaredDefaults[0].id == 1;
    ed.ToggleDefault(1);
    ed.AddEntity(now);
  }
}
