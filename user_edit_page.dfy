/** The user edit form: the stored user, the form's copy of name and
    e-mail, the role picker's working list, the password dialog, and the
    alert line. */
module UserEditPage {
  import Js

  datatype User = User(id: int, name: string, email: string, isActive: bool, roles: seq<string>)

  datatype FormData = FormData(name: string, email: string)

  /** The `password` state: `new` and `confirm`. */
  datatype Passwords = Passwords(newPassword: string, confirm: string)

  /** The field a `handleChange(field)` handler writes. */
  datatype Field = NameField | EmailField

  const NoPasswords := Passwords("", "")

  const MismatchMessage := "Пароли не совпадают"
  const TooShortMessage := "Пароль слишком короткий"
  const PasswordChangedMessage := "Пароль изменен"
  const RolesUpdatedMessage := "Роли обновлены"
  const SavedMessage := "Данные сохранены"
  const CancelledMessage := "Изменения отменены"

  /** The roles the picker offers. */
  const AllRoles: seq<string> := ["Администратор", "Модератор", "Пользователь", "Гость"]

  function ActiveMessage(nowActive: bool): string {
    "Пользователь " + (if nowActive then "активирован" else "деактивирован")
  }

  /** What `changePassword` decides: a mismatch is reported before a short
      password. */
  datatype PasswordOutcome = Mismatch | TooShort | Accepted

  function CheckPassword(p: Passwords): (r: PasswordOutcome)
    ensures r == Mismatch <==> p.newPassword != p.confirm
    ensures r == TooShort <==> p.newPassword == p.confirm && |p.newPassword| < 6
    ensures r == Accepted <==> p.newPassword == p.confirm && |p.newPassword| >= 6
  {
    if p.newPassword != p.confirm then Mismatch
    else if |p.newPassword| < 6 then TooShort
    else Accepted
  }

  /** The name and e-mail the form shows for `u`. */
  function FormOf(u: User): FormData {
    FormData(u.name, u.email)
  }

  class UserEditor {
    var user: User
    var formData: FormData
    var showPasswordModal: bool
    var showRolesModal: bool
    var password: Passwords
    var selectedRoles: seq<string>
    var alert: string

    constructor (user: User)
      ensures this.user == user && formData == FormOf(user) && selectedRoles == user.roles
      ensures !showPasswordModal && !showRolesModal && password == NoPasswords && alert == ""
    {
      this.user := user;
      formData := FormOf(user);
      showPasswordModal := false;
      showRolesModal := false;
      password := NoPasswords;
      selectedRoles := user.roles;
      alert := "";
    }

    /** `handleChange(field)` on an input event carrying `value`. */
    method Change(field: Field, value: string)
      modifies this`formData
      ensures field == NameField ==> formData == old(formData).(name := value)
      ensures field == EmailField ==> formData == old(formData).(email := value)
    {
      match field
      case NameField => formData := formData.(name := value);
      case EmailField => formData := formData.(email := value);
    }

    /** `toggleActive`: the flag flips and the alert names the new status. */
    method ToggleActive()
      modifies this`user, this`alert
      ensures user == old(user).(isActive := !old(user).isActive)
      ensures alert == ActiveMessage(user.isActive)
    {
      var newStatus := !user.isActive;
      user := user.(isActive := newStatus);
      alert := ActiveMessage(newStatus);
    }

    method SetNewPassword(value: string)
      modifies this`password
      ensures password == old(password).(newPassword := value)
    {
      password := password.(newPassword := value);
    }

    method SetConfirmPassword(value: string)
      modifies this`password
      ensures password == old(password).(confirm := value)
    {
      password := password.(confirm := value);
    }

    method OpenPasswordModal()
      modifies this`showPasswordModal
      ensures showPasswordModal
    {
      showPasswordModal := true;
    }

    method ClosePasswordModal()
      modifies this`showPasswordModal
      ensures !showPasswordModal
    {
      showPasswordModal := false;
    }

    /** `changePassword`: on either failure the fields and the dialog stay
        as they are; on success both fields are cleared and the dialog
        closes. */
    method ChangePassword()
      modifies this`showPasswordModal, this`password, this`alert
      ensures CheckPassword(old(password)) == Mismatch ==>
        password == old(password) && showPasswordModal == old(showPasswordModal) && alert == MismatchMessage
      ensures CheckPassword(old(password)) == TooShort ==>
        password == old(password) && showPasswordModal == old(showPasswordModal) && alert == TooShortMessage
      ensures CheckPassword(old(password)) == Accepted ==>
        password == NoPasswords && !showPasswordModal && alert == PasswordChangedMessage
    {
      if password.newPassword != password.confirm {
        alert := MismatchMessage;
        return;
      }
      if |password.newPassword| < 6 {
        alert := TooShortMessage;
        return;
      }
      showPasswordModal := false;
      password := NoPasswords;
      alert := PasswordChangedMessage;
    }

    method OpenRolesModal()
      modifies this`showRolesModal
      ensures showRolesModal
    {
      showRolesModal := true;
    }

    method CloseRolesModal()
      modifies this`showRolesModal
      ensures !showRolesModal
    {
      showRolesModal := false;
    }

    /** `toggleRole(role)` in the picker. */
    method ToggleRole(role: string)
      modifies this`selectedRoles
      ensures selectedRoles == Js.ToggleMember(old(selectedRoles), role)
    {
      selectedRoles := Js.ToggleMember(selectedRoles, role);
    }

    /** `saveRoles`. */
    method SaveRoles()
      modifies this`user, this`showRolesModal, this`alert
      ensures user == old(user).(roles := selectedRoles)
      ensures !showRolesModal && alert == RolesUpdatedMessage
    {
      user := user.(roles := selectedRoles);
      showRolesModal := false;
      alert := RolesUpdatedMessage;
    }

    /** `save`: only name and e-mail reach the user. */
    method Save()
      modifies this`user, this`alert
      ensures user == old(user).(name := formData.name, email := formData.email)
      ensures alert == SavedMessage
    {
      user := user.(name := formData.name, email := formData.email);
      alert := SavedMessage;
    }

    /** `cancel`: the form and the picker go back to the stored user. */
    method Cancel()
      modifies this`formData, this`selectedRoles, this`alert
      ensures formData == FormOf(user) && selectedRoles == user.roles
      ensures alert == CancelledMessage
    {
      formData := FormOf(user);
      selectedRoles := user.roles;
      alert := CancelledMessage;
    }
  }

  /** Cancelling twice is cancelling once, and cancelling after a save
      keeps the form as saved. */
  method CancelTwice(ed: UserEditor)
    modifies ed
    ensures ed.formData == old(ed.formData) && ed.user.name == old(ed.formData).name
  {
    ed.Save();
    ed.Cancel();
    var form := ed.formData;
    var roles := ed.selectedRoles;
    ed.Cancel();
    assert ed.formData == form && ed.selectedRoles == roles;
  }

  /** Two clicks on the status switch restore the user. */
  method ToggleActiveTwice(ed: UserEditor)
    modifies ed
    ensures ed.user == old(ed.user)
  {
    ed.ToggleActive();
    ed.ToggleActive();
  }
}
