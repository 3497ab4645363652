/**
 * The user store behind the two Spring controllers
 * (src/main/java/com/RideSharing/repository/RideRepository.java): a JPA
 * repository of `Ride` records (which are the user accounts), used only
 * through its derived query methods and `save`.
 *
 * The store is a sequence of records in insertion order together with the
 * next id the database would generate. Java strings may be null, so record
 * fields are `Option<string>`; a derived query compares with `=` and, for a
 * null argument, with `IS NULL`, which `Option` equality captures.
 *
 * A derived finder that returns `Optional` throws when more than one row
 * matches (`IncorrectResultSizeDataAccessException`); that outcome is
 * `NonUnique` here.
 */
module UserStore {
  import opened Wrappers

  type JString = Option<string>

  /** A stored account; only the columns the controllers read are modelled. */
  datatype User = User(id: nat, name: JString, email: JString, password: JString)

  /** A signup body before it is saved: the same columns, no id yet. */
  datatype NewUser = NewUser(name: JString, email: JString, password: JString)

  datatype Store = Store(users: seq<User>, nextId: nat)

  /** Ids are distinct and below the next id to be generated. */
  predicate Valid(st: Store) {
    && (forall i :: 0 <= i < |st.users| ==> st.users[i].id < st.nextId)
    && (forall i, j :: 0 <= i < j < |st.users| ==> st.users[i].id != st.users[j].id)
  }

  /** No two stored accounts share an email (a null email counts as a value, as `IS NULL` does). */
  predicate UniqueEmails(st: Store) {
    forall i, j :: 0 <= i < j < |st.users| ==> st.users[i].email != st.users[j].email
  }

  /** A fresh database: no rows, ids generated from 1. */
  const EmptyStore := Store([], 1)

  /** The `where` clause of a derived query, one per declared method. */
  datatype Criterion =
    | ByEmail(email: JString)
    | ByName(name: JString)
    | ByEmailAndPassword(email: JString, password: JString)
    | ByNameAndPassword(name: JString, password: JString)

  predicate Matches(c: Criterion, u: User) {
    match c
    case ByEmail(e) => u.email == e
    case ByName(n) => u.name == n
    case ByEmailAndPassword(e, p) => u.email == e && u.password == p
    case ByNameAndPassword(n, p) => u.name == n && u.password == p
  }

  /** The rows a query selects, in store order. */
  function Select(users: seq<User>, c: Criterion): (r: seq<User>)
    ensures |r| <= |users|
    ensures forall i :: 0 <= i < |r| ==> Matches(c, r[i]) && r[i] in users
    ensures r == [] <==> forall i :: 0 <= i < |users| ==> !Matches(c, users[i])
  {
    if users == [] then []
    else if Matches(c, users[0]) then [users[0]] + Select(users[1..], c)
    else
      assert forall i :: 1 <= i < |users| ==> users[i] == users[1..][i - 1];
      Select(users[1..], c)
  }

  /** `existsBy...`: true exactly when some stored record matches. */
  function Exists(st: Store, c: Criterion): (b: bool)
    ensures b <==> exists i :: 0 <= i < |st.users| && Matches(c, st.users[i])
  {
    Select(st.users, c) != []
  }

  /** `boolean existsByEmail(String email)`. */
  function ExistsByEmail(st: Store, email: JString): (b: bool)
    ensures b <==> exists i :: 0 <= i < |st.users| && st.users[i].email == email
  {
    Exists(st, ByEmail(email))
  }

  /** `boolean existsByName(String name)`. */
  function ExistsByName(st: Store, name: JString): (b: bool)
    ensures b <==> exists i :: 0 <= i < |st.users| && st.users[i].name == name
  {
    Exists(st, ByName(name))
  }

  /** The result of an `Optional` finder. */
  datatype Lookup = Empty | Found(user: User) | NonUnique

  /** An `Optional<Ride> findBy...` query: empty, the single matching row, or the too-many-rows exception. */
  function Find(st: Store, c: Criterion): (r: Lookup)
    ensures r.Empty? <==> forall i :: 0 <= i < |st.users| ==> !Matches(c, st.users[i])
    ensures r.Found? ==> Matches(c, r.user) && r.user in st.users
    ensures r.Found? ==> forall i :: 0 <= i < |st.users| && Matches(c, st.users[i]) ==> st.users[i] == r.user
  {
    var rows := Select(st.users, c);
    if rows == [] then Empty
    else if |rows| == 1 then
      SelectCountsMatches(st.users, c, rows[0]);
      Found(rows[0])
    else NonUnique
  }

  /** Every matching record appears among the selected rows. */
  lemma {:induction false} SelectCountsMatches(users: seq<User>, c: Criterion, only: User)
    requires Select(users, c) == [only]
    ensures forall i :: 0 <= i < |users| && Matches(c, users[i]) ==> users[i] == only
  {
    if users != [] {
      if Matches(c, users[0]) {
        var rest := Select(users[1..], c);
        assert [users[0]] + rest == [only];
        assert ([users[0]] + rest)[0] == users[0];
        assert |rest| == 0 && users[0] == only;
        assert forall i :: 1 <= i < |users| ==> users[i] == users[1..][i - 1];
      } else {
        SelectCountsMatches(users[1..], c, only);
        assert forall i :: 1 <= i < |users| ==> users[i] == users[1..][i - 1];
      }
    }
  }

  function FindByEmail(st: Store, email: JString): Lookup {
    Find(st, ByEmail(email))
  }

  function FindByName(st: Store, name: JString): Lookup {
    Find(st, ByName(name))
  }

  function FindByEmailAndPassword(st: Store, email: JString, password: JString): Lookup {
    Find(st, ByEmailAndPassword(email, password))
  }

  function FindByNameAndPassword(st: Store, name: JString, password: JString): Lookup {
    Find(st, ByNameAndPassword(name, password))
  }

  /** When emails are unique, an email finder never sees two rows. */
  lemma UniqueEmailsFindIsUnique(st: Store, email: JString, password: JString)
    requires UniqueEmails(st)
    ensures !FindByEmail(st, email).NonUnique?
    ensures !FindByEmailAndPassword(st, email, password).NonUnique?
  {
    EmailRowsCollide(st, ByEmail(email));
    EmailRowsCollide(st, ByEmailAndPassword(email, password));
  }

  /** Two rows selected by an email criterion from a store with unique emails cannot exist. */
  lemma EmailRowsCollide(st: Store, c: Criterion)
    requires UniqueEmails(st)
    requires c.ByEmail? || c.ByEmailAndPassword?
    ensures |Select(st.users, c)| <= 1
  {
    SelectUniqueEmails(st.users, c);
  }

  lemma {:induction false} SelectUniqueEmails(users: seq<User>, c: Criterion)
    requires forall i, j :: 0 <= i < j < |users| ==> users[i].email != users[j].email
    requires c.ByEmail? || c.ByEmailAndPassword?
    ensures |Select(users, c)| <= 1
  {
    if users != [] {
      var tail := users[1..];
      SelectUniqueEmails(tail, c);
      if Matches(c, users[0]) {
        forall i | 0 <= i < |tail|
          ensures !Matches(c, tail[i])
        {
          assert tail[i] == users[i + 1];
        }
      }
    }
  }

  /** `save` of a new entity: the record gets the next generated id and is added at the end. */
  function Save(st: Store, n: NewUser): (r: (Store, User))
    ensures r.1 == User(st.nextId, n.name, n.email, n.password)
    ensures r.0.users == st.users + [r.1]
    ensures r.0.nextId > st.nextId
    ensures Valid(st) ==> Valid(r.0)
    ensures forall u :: u in st.users ==> u in r.0.users
  {
    var u := User(st.nextId, n.name, n.email, n.password);
    (Store(st.users + [u], st.nextId + 1), u)
  }

  /** Saving a record whose email is absent keeps emails unique. */
  lemma SaveKeepsEmailsUnique(st: Store, n: NewUser)
    requires UniqueEmails(st)
    requires !ExistsByEmail(st, n.email)
    ensures UniqueEmails(Save(st, n).0)
  {
    var after := Save(st, n).0;
    forall i, j | 0 <= i < j < |after.users|
      ensures after.users[i].email != after.users[j].email
    {
      if j == |st.users| {
        assert after.users[i] == st.users[i];
      }
    }
  }
}
