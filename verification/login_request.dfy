/**
 * The login request body (src/main/java/com/RideSharing/dto/LoginRequest.java):
 * an identifier (email or name) and a password, both nullable Java strings,
 * with a no-argument constructor, a two-argument constructor, getters and
 * setters. The mutable bean becomes an immutable value; a setter returns the
 * updated value.
 */
module LoginRequestDto {
  import opened Wrappers
  import opened UserStore

  datatype LoginRequest = LoginRequest(identifier: JString, password: JString)

  /** `new LoginRequest()`: both fields left null, as Jackson finds it before binding. */
  function NoArgs(): (r: LoginRequest)
    ensures GetIdentifier(r).None? && GetPassword(r).None?
  {
    LoginRequest(None, None)
  }

  /** `new LoginRequest(identifier, password)`: the getters return exactly the supplied values. */
  function Make(identifier: JString, password: JString): (r: LoginRequest)
    ensures GetIdentifier(r) == identifier && GetPassword(r) == password
  {
    LoginRequest(identifier, password)
  }

  function GetIdentifier(r: LoginRequest): JString {
    r.identifier
  }

  function GetPassword(r: LoginRequest): JString {
    r.password
  }

  /** `setIdentifier`: the identifier is replaced and the password kept. */
  function SetIdentifier(r: LoginRequest, identifier: JString): (r': LoginRequest)
    ensures GetIdentifier(r') == identifier
    ensures GetPassword(r') == GetPassword(r)
  {
    r.(identifier := identifier)
  }

  /** `setPassword`: the password is replaced and the identifier kept. */
  function SetPassword(r: LoginRequest, password: JString): (r': LoginRequest)
    ensures GetPassword(r') == password
    ensures GetIdentifier(r') == GetIdentifier(r)
  {
    r.(password := password)
  }

  /** Setting both fields of an empty request is the same as the two-argument constructor, in either order. */
  lemma SettersBuildRequest(identifier: JString, password: JString)
    ensures SetPassword(SetIdentifier(NoArgs(), identifier), password) == Make(identifier, password)
    ensures SetIdentifier(SetPassword(NoArgs(), password), identifier) == Make(identifier, password)
  {
  }

  /** Setting a field to the value it already has changes nothing. */
  lemma SetGetIsIdentity(r: LoginRequest)
    ensures SetIdentifier(r, GetIdentifier(r)) == r
    ensures SetPassword(r, GetPassword(r)) == r
  {
  }
}
