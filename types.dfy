/**
 * Records shared by several components: the signed-in user, a customer and
 * the alert banner state every form keeps.
 */
module Types {
  import opened Js

  /**
   * The signed-in user. `salon` is read by the appointment form as `user.salon`
   * although the declared user type has no such field; a missing field is `None`.
   */
  datatype User = User(id: Option<int>, salon: Option<int>, isOwner: bool, isStaff: bool)

  datatype Customer = Customer(id: int, fullName: string, phoneNumber: string)

  datatype AlertKind = Success | Error

  /** `{ show, type, message }` */
  datatype Alert = Alert(show: bool, kind: AlertKind, message: string)

  /** The initial and reset value of every alert state. */
  const HiddenAlert := Alert(false, Success, "")

  /** `user?.salon` is truthy: present and not 0. */
  predicate HasSalon(user: Option<User>) {
    user.Some? && user.value.salon.Some? && user.value.salon.value != 0
  }
}
