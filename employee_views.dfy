/**
 * The JSON endpoints of the employee administration: the administrator gate
 * every endpoint sits behind, and create, update and delete over a store of
 * employee records keyed by id. Password hashing is abstract: a record holds
 * the password it was last set to.
 */
module EmployeeViews {
  import opened Outcomes

  const Administrator := "Administrador"
  const DefaultAccessLevel := "Usuário"

  const NameRequired := "Nome é obrigatório"
  const EmailRequired := "E-mail é obrigatório"
  const PasswordRequired := "Senha é obrigatória"
  const EmailTaken := "E-mail já cadastrado"
  const MalformedBody := "Dados inválidos"

  /** The optional text fields of an employee, all stored as '' when absent from the body. */
  const ProfileKeys: set<string> :=
    {"phone", "mobile", "cpf", "rg", "cargo", "cep", "endereco", "complemento", "bairro", "cidade", "estado"}

  // ---- the gate

  datatype Requester = Anonymous | SignedIn(accessLevel: string)

  datatype Gate = ToLogin | ToHome | Proceed

  /** `admin_required`: sign-in first, then the access level. */
  function AdminGate(r: Requester): (g: Gate)
    ensures g == Proceed <==> r.SignedIn? && r.accessLevel == Administrator
    ensures g == ToLogin <==> r.Anonymous?
  {
    if r.Anonymous? then ToLogin
    else if r.accessLevel != Administrator then ToHome
    else Proceed
  }

  // ---- records and request bodies

  datatype Employee = Employee(
    username: string, email: string, password: string,
    profile: map<string, string>, accessLevel: string, numero: Option<int>)

  /** A decoded JSON object: its text values by key, and its `numero` value when present. */
  datatype Payload = Payload(text: map<string, string>, numero: Option<int>)

  /** `data.get(key, default)` */
  function Get(data: Payload, key: string, default: string): string
  {
    if key in data.text then data.text[key] else default
  }

  /** `data.get(key)` is truthy: present and not empty. */
  predicate Given(data: Payload, key: string)
  {
    key in data.text && data.text[key] != ""
  }

  /** Every profile field from the body, '' where absent. */
  function ProfileOf(data: Payload): (m: map<string, string>)
    ensures m.Keys == ProfileKeys
    ensures forall k :: k in ProfileKeys ==> m[k] == Get(data, k, "")
  {
    map k | k in ProfileKeys :: Get(data, k, "")
  }

  /** `data.get('numero') if data.get('numero') else None`: a missing or zero number is stored as no number. */
  function NumeroOf(data: Payload): (n: Option<int>)
    ensures n.Some? <==> data.numero.Some? && data.numero.value != 0
    ensures n.Some? ==> n == data.numero
  {
    if data.numero.Some? && data.numero.value != 0 then data.numero else None
  }

  function Emails(m: map<nat, Employee>): set<string>
  {
    set id | id in m :: m[id].email
  }

  /** The id of a record whose username is `name`, other than `except`, exists. */
  predicate UsernameHeld(m: map<nat, Employee>, name: string, except: int)
  {
    exists id :: id in m && id != except && m[id].username == name
  }

  // ---- create

  /** The checks of `employee_create` in order; the first that fails gives the 400 message. */
  function CreateError(data: Payload, emails: set<string>): (e: Option<string>)
    ensures e == None <==>
      Given(data, "username") && Given(data, "email") && Given(data, "password")
      && data.text["email"] !in emails
    ensures !Given(data, "username") ==> e == Some(NameRequired)
    ensures Given(data, "username") && !Given(data, "email") ==> e == Some(EmailRequired)
    ensures Given(data, "username") && Given(data, "email") && !Given(data, "password") ==> e == Some(PasswordRequired)
    ensures (Given(data, "username") && Given(data, "email") && Given(data, "password")
             && data.text["email"] in emails) ==> e == Some(EmailTaken)
  {
    if !Given(data, "username") then Some(NameRequired)
    else if !Given(data, "email") then Some(EmailRequired)
    else if !Given(data, "password") then Some(PasswordRequired)
    else if data.text["email"] in emails then Some(EmailTaken)
    else None
  }

  /** The record `create_user` stores. */
  function NewEmployee(data: Payload): (e: Employee)
    requires Given(data, "username") && Given(data, "email") && Given(data, "password")
    ensures e.username == data.text["username"] && e.email == data.text["email"]
    ensures e.password == data.text["password"]
    ensures e.profile == ProfileOf(data)
    ensures "access_level" !in data.text ==> e.accessLevel == DefaultAccessLevel
    ensures "access_level" in data.text ==> e.accessLevel == data.text["access_level"]
    ensures e.numero == NumeroOf(data)
  {
    Employee(data.text["username"], data.text["email"], data.text["password"],
             ProfileOf(data), Get(data, "access_level", DefaultAccessLevel), NumeroOf(data))
  }

  // ---- update

  /**
   * The assignments of `employee_update`: username, email and password change
   * only when given; every other field is overwritten from the body, with its
   * default when absent.
   */
  function Merge(e: Employee, data: Payload): (r: Employee)
    ensures r.username == (if Given(data, "username") then data.text["username"] else e.username)
    ensures r.email == (if Given(data, "email") then data.text["email"] else e.email)
    ensures r.password == (if Given(data, "password") then data.text["password"] else e.password)
    ensures r.profile == ProfileOf(data)
    ensures r.accessLevel == Get(data, "access_level", DefaultAccessLevel)
    ensures r.numero == NumeroOf(data)
  {
    Employee(
      if Given(data, "username") then data.text["username"] else e.username,
      if Given(data, "email") then data.text["email"] else e.email,
      if Given(data, "password") then data.text["password"] else e.password,
      ProfileOf(data), Get(data, "access_level", DefaultAccessLevel), NumeroOf(data))
  }

  /** A profile field absent from the body is cleared, whatever the record held. */
  lemma UpdateClearsAbsentFields(e: Employee, data: Payload, key: string)
    requires key in ProfileKeys && key !in data.text
    ensures Merge(e, data).profile[key] == ""
    ensures "access_level" !in data.text ==> Merge(e, data).accessLevel == DefaultAccessLevel
  {
  }

  /** Only username, email and password survive an update from the old record. */
  lemma UpdateForgetsOldProfile(e1: Employee, e2: Employee, data: Payload)
    requires e1.username == e2.username && e1.email == e2.email && e1.password == e2.password
    ensures Merge(e1, data) == Merge(e2, data)
  {
  }

  /** Sending the same body twice has the effect of sending it once. */
  lemma UpdateIdempotent(e: Employee, data: Payload)
    ensures Merge(Merge(e, data), data) == Merge(e, data)
  {
  }

  /** An update whose body would pass create's required-field checks yields the record create would store. */
  lemma CompleteUpdateIsCreate(e: Employee, data: Payload)
    requires Given(data, "username") && Given(data, "email") && Given(data, "password")
    ensures Merge(e, data) == NewEmployee(data)
  {
  }

  // ---- the store

  datatype Response =
    | Redirect(to: string)
    | MethodNotAllowed
    | BadRequest(error: string)
    | NotFound
    | ServerError
    | Created(id: nat)
    | Done

  /** The response of the gate and the method check, when the request does not reach the view body. */
  function Guard(r: Requester, httpMethod: string, allowed: string): (resp: Option<Response>)
    ensures resp.None? <==> AdminGate(r) == Proceed && httpMethod == allowed
    ensures AdminGate(r) == ToLogin ==> resp == Some(Redirect("login"))
    ensures AdminGate(r) == ToHome ==> resp == Some(Redirect("home"))
    ensures AdminGate(r) == Proceed && httpMethod != allowed ==> resp == Some(MethodNotAllowed)
  {
    match AdminGate(r)
    case ToLogin => Some(Redirect("login"))
    case ToHome => Some(Redirect("home"))
    case Proceed => if httpMethod != allowed then Some(MethodNotAllowed) else None
  }

  class EmployeeStore {
    var employees: map<nat, Employee>
    var nextId: nat

    /** Ids are handed out in increasing order, and the username column is unique. */
    ghost predicate Valid()
      reads this
    {
      && 0 < nextId
      && (forall id :: id in employees ==> 0 < id < nextId)
      && (forall a, b :: a in employees && b in employees && a != b ==> employees[a].username != employees[b].username)
    }

    constructor ()
      ensures Valid() && employees == map[] && nextId == 1
    {
      employees := map[];
      nextId := 1;
    }

    /**
     * `employee_create`. A username already taken makes the insert fail on the
     * unique column, which the view reports as a server error.
     */
    method Create(r: Requester, httpMethod: string, body: Option<Payload>) returns (resp: Response)
      requires Valid()
      modifies this
      ensures Valid()
      ensures Guard(r, httpMethod, "POST").Some? ==>
        resp == Guard(r, httpMethod, "POST").value && unchanged(this)
      ensures Guard(r, httpMethod, "POST").None? && body.None? ==>
        resp == BadRequest(MalformedBody) && unchanged(this)
      ensures Guard(r, httpMethod, "POST").None? && body.Some? ==>
        var data := body.value;
        match CreateError(data, Emails(old(employees)))
        case Some(message) => resp == BadRequest(message) && unchanged(this)
        case None =>
          if UsernameHeld(old(employees), data.text["username"], -1) then
            resp == ServerError && unchanged(this)
          else
            && resp == Created(old(nextId))
            && old(nextId) !in old(employees)
            && employees == old(employees)[old(nextId) := NewEmployee(data)]
            && nextId == old(nextId) + 1
    {
      var guard := Guard(r, httpMethod, "POST");
      if guard.Some? {
        return guard.value;
      }
      if body.None? {
        return BadRequest(MalformedBody);
      }
      var data := body.value;
      var error := CreateError(data, Emails(employees));
      if error.Some? {
        return BadRequest(error.value);
      }
      if UsernameHeld(employees, data.text["username"], -1) {
        return ServerError;
      }
      var id := nextId;
      employees := employees[id := NewEmployee(data)];
      nextId := nextId + 1;
      return Created(id);
    }

    /**
     * `employee_update`. The record is looked up before the body is decoded,
     * so an unknown id is reported even for a malformed body.
     */
    method Update(r: Requester, httpMethod: string, pk: int, body: Option<Payload>) returns (resp: Response)
      requires Valid()
      modifies this
      ensures Valid()
      ensures nextId == old(nextId)
      ensures Guard(r, httpMethod, "PUT").Some? ==>
        resp == Guard(r, httpMethod, "PUT").value && unchanged(this)
      ensures Guard(r, httpMethod, "PUT").None? && (pk < 0 || pk !in old(employees)) ==>
        resp == NotFound && unchanged(this)
      ensures Guard(r, httpMethod, "PUT").None? && pk >= 0 && pk in old(employees) && body.None? ==>
        resp == BadRequest(MalformedBody) && unchanged(this)
      ensures Guard(r, httpMethod, "PUT").None? && pk >= 0 && pk in old(employees) && body.Some? ==>
        var merged := Merge(old(employees)[pk], body.value);
        if UsernameHeld(old(employees), merged.username, pk) then
          resp == ServerError && unchanged(this)
        else
          resp == Done && employees == old(employees)[pk := merged]
    {
      var guard := Guard(r, httpMethod, "PUT");
      if guard.Some? {
        return guard.value;
      }
      if pk < 0 || pk !in employees {
        return NotFound;
      }
      if body.None? {
        return BadRequest(MalformedBody);
      }
      var merged := Merge(employees[pk], body.value);
      if UsernameHeld(employees, merged.username, pk) {
        return ServerError;
      }
      employees := employees[pk := merged];
      return Done;
    }

    /** `employee_delete`: removes exactly the record with that id. */
    method Delete(r: Requester, httpMethod: string, pk: int) returns (resp: Response)
      requires Valid()
      modifies this
      ensures Valid()
      ensures nextId == old(nextId)
      ensures Guard(r, httpMethod, "DELETE").Some? ==>
        resp == Guard(r, httpMethod, "DELETE").value && unchanged(this)
      ensures Guard(r, httpMethod, "DELETE").None? && (pk < 0 || pk !in old(employees)) ==>
        resp == NotFound && unchanged(this)
      ensures Guard(r, httpMethod, "DELETE").None? && pk >= 0 && pk in old(employees) ==>
        resp == Done && employees == old(employees) - {pk}
    {
      var guard := Guard(r, httpMethod, "DELETE");
      if guard.Some? {
        return guard.value;
      }
      if pk < 0 || pk !in employees {
        return NotFound;
      }
      employees := employees - {pk};
      return Done;
    }
  }
}
