/**
 * The two REST endpoints over the user store:
 * `POST /api/login` (src/main/java/com/RideSharing/controller/LoginController.java)
 * and `POST /api/signup` (src/main/java/com/RideSharing/controller/SignupControiller.java).
 *
 * A response is its status and its `List<String>` body. A finder that throws
 * because several rows match ends in Spring's default error handling, shown
 * here as status 500 with an empty body (the error page is not modelled).
 */
module AuthControllers {
  import opened Wrappers
  import Text
  import opened UserStore
  import opened LoginRequestDto

  datatype Response = Response(status: nat, body: seq<string>)

  const MissingCredentials := Response(400, ["Missing credentials"])
  const InvalidCredentials := Response(400, ["Invalid credentials"])
  const EmailTaken := Response(400, ["Email already exists"])
  const ServerError := Response(500, [])

  /** Java's `s.trim()`. */
  function JavaTrim(s: string): string {
    Text.Trim(Text.JavaWhitespace, s)
  }

  /** `x == null || x.trim().isEmpty()`. */
  predicate NullOrBlank(x: JString) {
    x.None? || JavaTrim(x.value) == []
  }

  /** The login guard: either credential null or blank after trimming. */
  predicate MissingCredential(req: LoginRequest) {
    NullOrBlank(req.identifier) || NullOrBlank(req.password)
  }

  /**
   * The lookup the controller runs: by email when the identifier contains
   * '@', by name otherwise; the identifier is trimmed, the password is not.
   */
  function LoginCriterion(identifier: string, password: string): (c: Criterion)
    ensures Text.Contains(identifier, '@') ==> c == ByEmailAndPassword(Some(JavaTrim(identifier)), Some(password))
    ensures !Text.Contains(identifier, '@') ==> c == ByNameAndPassword(Some(JavaTrim(identifier)), Some(password))
  {
    if Text.Contains(identifier, '@') then ByEmailAndPassword(Some(JavaTrim(identifier)), Some(password))
    else ByNameAndPassword(Some(JavaTrim(identifier)), Some(password))
  }

  /** `login`: the store is only read. */
  function Login(st: Store, req: LoginRequest): (r: Response)
    ensures MissingCredential(req) ==> r == MissingCredentials
    ensures !MissingCredential(req) ==>
      var c := LoginCriterion(req.identifier.value, req.password.value);
      && ((forall i :: 0 <= i < |st.users| ==> !Matches(c, st.users[i])) ==> r == InvalidCredentials)
      && (r.status == 200 ==>
            exists i :: 0 <= i < |st.users| && Matches(c, st.users[i])
              && r.body == ["Login successful", Text.NatToString(st.users[i].id)])
    ensures r.status in {200, 400, 500}
  {
    if MissingCredential(req) then MissingCredentials
    else
      var c := LoginCriterion(req.identifier.value, req.password.value);
      match Find(st, c)
      case Empty => InvalidCredentials
      case Found(u) => Response(200, ["Login successful", Text.NatToString(u.id)])
      case NonUnique => ServerError
  }

  /** A successful login names the one account matching the credentials. */
  lemma LoginSucceedsOnUniqueMatch(st: Store, req: LoginRequest, k: nat)
    requires !MissingCredential(req)
    requires k < |st.users|
    requires Matches(LoginCriterion(req.identifier.value, req.password.value), st.users[k])
    requires forall i :: 0 <= i < |st.users| && i != k ==>
      !Matches(LoginCriterion(req.identifier.value, req.password.value), st.users[i])
    ensures Login(st, req) == Response(200, ["Login successful", Text.NatToString(st.users[k].id)])
  {
    FindSingleMatch(st, LoginCriterion(req.identifier.value, req.password.value), k);
  }

  /** A finder whose criterion only record `k` meets returns that record. */
  lemma FindSingleMatch(st: Store, c: Criterion, k: nat)
    requires k < |st.users| && Matches(c, st.users[k])
    requires forall i :: 0 <= i < |st.users| && i != k ==> !Matches(c, st.users[i])
    ensures Find(st, c) == Found(st.users[k])
  {
    SelectAtMostOne(st.users, c, k);
    var f := Find(st, c);
    assert !f.Empty?;
    assert f.user == st.users[k];
  }

  /** If only record `k` matches, the query selects at most one row. */
  lemma {:induction false} SelectAtMostOne(users: seq<User>, c: Criterion, k: nat)
    requires k < |users|
    requires forall i :: 0 <= i < |users| && i != k ==> !Matches(c, users[i])
    ensures |Select(users, c)| <= 1
  {
    var tail := users[1..];
    if k == 0 {
      assert forall i :: 0 <= i < |tail| ==> tail[i] == users[i + 1];
      assert Select(tail, c) == [];
    } else {
      assert forall i :: 0 <= i < |tail| ==> tail[i] == users[i + 1];
      SelectAtMostOne(tail, c, k - 1);
    }
  }

  /** Two matching records put at least two rows in the selection. */
  lemma {:induction false} SelectAtLeastTwo(users: seq<User>, c: Criterion, i: nat, j: nat)
    requires i < j < |users|
    requires Matches(c, users[i]) && Matches(c, users[j])
    ensures |Select(users, c)| >= 2
  {
    var tail := users[1..];
    assert tail[j - 1] == users[j];
    if i == 0 {
      assert Select(tail, c) != [];
    } else {
      assert tail[i - 1] == users[i];
      SelectAtLeastTwo(tail, c, i - 1, j - 1);
    }
  }

  /** With unique emails, an email login never ends in the too-many-rows error. */
  lemma EmailLoginNeverAmbiguous(st: Store, req: LoginRequest)
    requires UniqueEmails(st)
    requires !MissingCredential(req) && Text.Contains(req.identifier.value, '@')
    ensures Login(st, req).status != 500
  {
    UniqueEmailsFindIsUnique(st, Some(JavaTrim(req.identifier.value)), Some(req.password.value));
  }

  /**
   * Names are not unique: when two accounts share the name and password of a
   * name login, the finder throws and the login ends with status 500.
   */
  lemma NameLoginCanBeAmbiguous(st: Store, req: LoginRequest, i: nat, j: nat)
    requires !MissingCredential(req) && !Text.Contains(req.identifier.value, '@')
    requires i < j < |st.users|
    requires st.users[i].name == st.users[j].name == Some(JavaTrim(req.identifier.value))
    requires st.users[i].password == st.users[j].password == req.password
    ensures Login(st, req) == ServerError
  {
    var c := LoginCriterion(req.identifier.value, req.password.value);
    assert Matches(c, st.users[i]) && Matches(c, st.users[j]);
    SelectAtLeastTwo(st.users, c, i, j);
    assert Find(st, c) == NonUnique;
  }

  /**
   * The guard trims the password but the lookup compares it as sent: a sent
   * password with surrounding blanks misses the account stored with the
   * trimmed one.
   */
  lemma PasswordComparedUntrimmed(st: Store, req: LoginRequest)
    requires !MissingCredential(req)
    requires JavaTrim(req.password.value) != req.password.value
    requires forall i :: 0 <= i < |st.users| ==> st.users[i].password != req.password
    ensures Login(st, req) == InvalidCredentials
  {
  }

  /** The outcome of `signup`: the store afterwards and the response. */
  datatype SignupResult = SignupResult(store: Store, response: Response)

  /**
   * `signup`: a taken email (null included) is refused and nothing is saved;
   * otherwise the record is saved under a fresh id and that id is returned.
   * Only the email is checked.
   */
  function Signup(st: Store, body: NewUser): (r: SignupResult)
    ensures ExistsByEmail(st, body.email) ==> r == SignupResult(st, EmailTaken)
    ensures !ExistsByEmail(st, body.email) ==>
      && r.store.users == st.users + [User(st.nextId, body.name, body.email, body.password)]
      && r.response == Response(200, ["User registered successfully", Text.NatToString(st.nextId)])
    ensures UniqueEmails(st) ==> UniqueEmails(r.store)
    ensures Valid(st) ==> Valid(r.store)
  {
    if ExistsByEmail(st, body.email) then SignupResult(st, EmailTaken)
    else
      assert UniqueEmails(st) ==> UniqueEmails(Save(st, body).0) by {
        if UniqueEmails(st) {
          SaveKeepsEmailsUnique(st, body);
        }
      }
      var (after, saved) := Save(st, body);
      SignupResult(after, Response(200, ["User registered successfully", Text.NatToString(saved.id)]))
  }

  /** A name already in use, with any password, does not stop a signup under a new email. */
  lemma DuplicateNameAccepted(st: Store, body: NewUser, k: nat)
    requires k < |st.users| && st.users[k].name == body.name
    requires forall i :: 0 <= i < |st.users| ==> st.users[i].email != body.email
    ensures Signup(st, body).response.status == 200
    ensures ExistsByName(st, body.name)
  {
  }

  /** A signup refused for its email leaves the store exactly as it was. */
  lemma RefusedSignupChangesNothing(st: Store, body: NewUser, k: nat)
    requires k < |st.users| && st.users[k].email == body.email
    ensures Signup(st, body).store == st
    ensures Signup(st, body).response == EmailTaken
  {
  }

  /** One request to either endpoint. */
  datatype Call = LoginCall(request: LoginRequest) | SignupCall(body: NewUser)

  /** The store after serving one request. */
  function Serve(st: Store, call: Call): (r: Store)
    ensures call.LoginCall? ==> r == st
    ensures call.SignupCall? ==> st.users <= r.users && |r.users| <= |st.users| + 1
  {
    match call
    case LoginCall(_) => st
    case SignupCall(body) => Signup(st, body).store
  }

  /** The store after serving requests in order. */
  function ServeAll(st: Store, calls: seq<Call>): Store
    decreases |calls|
  {
    if calls == [] then st else ServeAll(Serve(st, calls[0]), calls[1..])
  }

  /** Whatever requests arrive, stored emails stay unique and ids stay distinct. */
  lemma {:induction false} ServeAllKeepsInvariants(st: Store, calls: seq<Call>)
    requires UniqueEmails(st) && Valid(st)
    ensures UniqueEmails(ServeAll(st, calls)) && Valid(ServeAll(st, calls))
    decreases |calls|
  {
    if calls != [] {
      var next := Serve(st, calls[0]);
      assert UniqueEmails(next) && Valid(next);
      ServeAllKeepsInvariants(next, calls[1..]);
    }
  }

  /** Serving only logins never changes the store. */
  lemma {:induction false} LoginsLeaveStore(st: Store, calls: seq<Call>)
    requires forall i :: 0 <= i < |calls| ==> calls[i].LoginCall?
    ensures ServeAll(st, calls) == st
    decreases |calls|
  {
    if calls != [] {
      LoginsLeaveStore(st, calls[1..]);
    }
  }
}
