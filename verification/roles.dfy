/** The roles the add-on reports for a user and the client checks against. */
module Roles {
  datatype Role = Employee | Manager | Hr | Admin

  /** The role's name on the wire. */
  function Name(r: Role): (s: string)
    ensures s != ""
  {
    match r
    case Employee => "employee"
    case Manager => "manager"
    case Hr => "hr"
    case Admin => "admin"
  }

  /** Distinct roles have distinct names. */
  lemma NameInjective(a: Role, b: Role)
    requires Name(a) == Name(b)
    ensures a == b
  {
  }
}
