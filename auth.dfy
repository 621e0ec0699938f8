/**
 * Registration, login and the sensitive-field filter, from
 * src/app/authentication/auth.service.ts. Password hashing and comparison and
 * the signed token are outside the model: the comparison's outcome is a
 * parameter and no token is produced.
 */
module Auth {
  import opened Wrappers
  import opened Errors
  import opened Records
  import opened Db
  import MapleradUserAccount
  import Wallets

  const SensitiveKeys: seq<string> := ["password", "bvn"]
  const UserExists := "User already exists"
  const InvalidCredentials := "Invalid credentials"

  /** A value in a user document turned into a plain object. */
  datatype Field = Text(text: string) | When(date: Date) | Place(address: Address) | Number(n: int)

  /** `user.toObject()` as its entries, in schema order, with the id and version key. */
  function UserObject(id: string, u: User): seq<(string, Field)>
  {
    [("_id", Text(id)), ("firstName", Text(u.firstName)), ("lastName", Text(u.lastName)),
     ("dateOfBirth", When(u.dateOfBirth)), ("email", Text(u.email)), ("password", Text(u.password)),
     ("phoneNumber", Text(u.phoneNumber)), ("bvn", Text(u.bvn)), ("address", Place(u.address)),
     ("__v", Number(0))]
  }

  /**
   * `removeSensitiveData`: the entries whose key is not "password" or "bvn",
   * unchanged and in their order.
   */
  function RemoveSensitiveData<V(!new)>(entries: seq<(string, V)>): (r: seq<(string, V)>)
    ensures forall e :: e in r <==> e in entries && e.0 !in SensitiveKeys
    ensures |r| <= |entries|
  {
    if entries == [] then []
    else (if entries[0].0 in SensitiveKeys then [] else [entries[0]]) + RemoveSensitiveData(entries[1..])
  }

  /** The filter works entry by entry, so it keeps the order of what it keeps. */
  lemma {:induction false} RemoveSensitiveDataDistributes<V(!new)>(a: seq<(string, V)>, b: seq<(string, V)>)
    ensures RemoveSensitiveData(a + b) == RemoveSensitiveData(a) + RemoveSensitiveData(b)
    decreases |a|
  {
    if a == [] {
      assert a + b == b;
    } else {
      var head := if a[0].0 in SensitiveKeys then [] else [a[0]];
      assert (a + b)[0] == a[0];
      assert (a + b)[1..] == a[1..] + b;
      RemoveSensitiveDataDistributes(a[1..], b);
      calc {
        RemoveSensitiveData(a + b);
        head + RemoveSensitiveData(a[1..] + b);
        head + (RemoveSensitiveData(a[1..]) + RemoveSensitiveData(b));
        (head + RemoveSensitiveData(a[1..])) + RemoveSensitiveData(b);
      }
    }
  }

  /** Entries with no sensitive key pass the filter unchanged. */
  lemma {:induction false} KeepAll<V(!new)>(entries: seq<(string, V)>)
    requires forall i :: 0 <= i < |entries| ==> entries[i].0 !in SensitiveKeys
    ensures RemoveSensitiveData(entries) == entries
    decreases |entries|
  {
    if entries != [] {
      KeepAll(entries[1..]);
      assert [entries[0]] + entries[1..] == entries;
    }
  }

  /** Filtering twice is filtering once. */
  lemma RemoveSensitiveDataIdempotent<V(!new)>(entries: seq<(string, V)>)
    ensures RemoveSensitiveData(RemoveSensitiveData(entries)) == RemoveSensitiveData(entries)
  {
    var once := RemoveSensitiveData(entries);
    assert forall i :: 0 <= i < |once| ==> once[i] in once;
    KeepAll(once);
  }

  /** `findOne({ email })` finds a user. */
  predicate EmailTaken(users: map<string, User>, email: string)
  {
    exists id :: id in users && users[id].email == email
  }

  datatype RegisterInput = RegisterInput(
    firstName: string,
    lastName: string,
    dateOfBirth: string,
    email: string,
    password: string,
    bvn: string,
    phoneNumber: string,
    address: Address)

  /** The user document `register` creates, with the date of birth as parsed. */
  function NewUser(input: RegisterInput, dob: Date): User
  {
    User(input.firstName, input.lastName, input.email, input.password, input.phoneNumber,
         input.address, dob, input.bvn)
  }

  /**
   * `register`. A taken email fails with BadRequest and creates nothing.
   * Otherwise the user is stored, then enrolled at Maplerad, then given the
   * default wallets, and the stored user comes back without its sensitive
   * fields. A failed enrolment stops the sequence with the user already
   * stored. `newId` is the id the database gives the new document and
   * `dob` the parsed `dateOfBirth`.
   */
  method Register(s: Store, input: RegisterInput, newId: string, dob: Date, enrolReply: MapleradUserAccount.EnrolReply)
    returns (r: Result<seq<(string, Field)>, AppError>)
    requires newId !in s.users
    modifies s`users, s`accounts, s`wallets
    ensures EmailTaken(old(s.users), input.email) ==>
      r == Failure(BadRequest(UserExists)) &&
      s.users == old(s.users) && s.accounts == old(s.accounts) && s.wallets == old(s.wallets)
    ensures !EmailTaken(old(s.users), input.email) ==> s.users == old(s.users)[newId := NewUser(input, dob)]
    ensures !EmailTaken(old(s.users), input.email) && enrolReply.EnrolFailed? ==>
      r == Failure(Plain(MapleradUserAccount.EnrolError)) &&
      s.accounts == old(s.accounts) && s.wallets == old(s.wallets)
    ensures !EmailTaken(old(s.users), input.email) && enrolReply.Enrolled? ==>
      s.accounts == old(s.accounts) + [MapleradAccount(newId, enrolReply.id, enrolReply.tier)] &&
      s.wallets == old(s.wallets) + [Wallet(newId, "USD", 0.0), Wallet(newId, "NGN", 0.0)] &&
      r == Success(RemoveSensitiveData(UserObject(newId, NewUser(input, dob))))
    ensures r.Success? ==> forall e :: e in r.value ==> e.0 != "password" && e.0 != "bvn"
    // at most one user per email, and one wallet per currency for the new user
    ensures OneUserPerEmail(old(s.users)) ==> OneUserPerEmail(s.users)
    ensures OneWalletPerCurrency(old(s.wallets)) && (forall i :: 0 <= i < |old(s.wallets)| ==> old(s.wallets)[i].user != newId) ==>
      OneWalletPerCurrency(s.wallets)
  {
    if EmailTaken(s.users, input.email) {
      return Failure(BadRequest(UserExists));
    }
    var user := NewUser(input, dob);
    s.users := s.users[newId := user];
    var _, enrolled := MapleradUserAccount.CreateUserAccountOnMaplerad(s, newId, enrolReply);
    if enrolled.Failure? {
      return Failure(enrolled.error);
    }
    var _ := Wallets.CreateDefaultWallets(s, newId);
    r := Success(RemoveSensitiveData(UserObject(newId, user)));
  }

  /**
   * `login`. An unknown email fails with BadRequest; a password that does not
   * match fails with a plain error carrying the same message; otherwise the
   * user with that email comes back without its sensitive fields.
   * `passwordMatches` is the outcome of comparing against the stored hash.
   */
  method Login(s: Store, email: string, passwordMatches: bool) returns (r: Result<seq<(string, Field)>, AppError>)
    ensures !EmailTaken(s.users, email) ==> r == Failure(BadRequest(InvalidCredentials))
    ensures EmailTaken(s.users, email) && !passwordMatches ==> r == Failure(Plain(InvalidCredentials))
    ensures r.Success? <==> EmailTaken(s.users, email) && passwordMatches
    ensures r.Success? ==>
      (exists id :: id in s.users && s.users[id].email == email && r.value == RemoveSensitiveData(UserObject(id, s.users[id])))
    ensures r.Success? ==> forall e :: e in r.value ==> e.0 != "password" && e.0 != "bvn"
  {
    if !EmailTaken(s.users, email) {
      return Failure(BadRequest(InvalidCredentials));
    }
    var id :| id in s.users && s.users[id].email == email;
    if !passwordMatches {
      return Failure(Plain(InvalidCredentials));
    }
    r := Success(RemoveSensitiveData(UserObject(id, s.users[id])));
  }
}
