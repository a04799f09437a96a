/**
 * Accounts: student registration (the e-mail address is normalised and must be a
 * university address; unique-key clashes become distinct messages) and login, which
 * dispatches on the requested role: the single admin credential, the fixed member
 * credential table (both provision their account on first login), or a student's
 * stored account and password.
 */
module AuthController {

  import opened Wrappers
  import opened Entities
  import opened Store
  import opened Text

  /** The only domain students may register with. */
  const StudentDomain := "@srmap.edu.in"

  /** `(raw || '').toLowerCase().trim()`. */
  function Normalize(raw: Option<string>): (e: string)
    ensures |e| <= |OrElse(raw, "")|
    ensures e == [] || (!IsSpace(e[0]) && !IsSpace(e[|e| - 1]))
  {
    Trim(Lower(OrElse(raw, "")))
  }

  predicate IsLower(s: string) {
    forall i | 0 <= i < |s| :: LowerChar(s[i]) == s[i]
  }

  lemma TrimStartOfTrimmed(s: string)
    requires s == [] || !IsSpace(s[0])
    ensures TrimStart(s) == s
  {
  }

  lemma TrimEndOfTrimmed(s: string)
    requires s == [] || !IsSpace(s[|s| - 1])
    ensures TrimEnd(s) == s
  {
  }

  lemma LowerIsLower(s: string)
    ensures IsLower(Lower(s))
  {
  }

  lemma LowerOfLower(s: string)
    requires IsLower(s)
    ensures Lower(s) == s
  {
  }

  /** Every slice of a lower-case string is lower case. */
  lemma SliceKeepsLower(s: string, i: int, j: int)
    requires IsLower(s) && 0 <= i <= j <= |s|
    ensures IsLower(s[i..j])
  {
    forall k | 0 <= k < j - i ensures LowerChar(s[i..j][k]) == s[i..j][k] {
      assert s[i..j][k] == s[i + k];
    }
  }

  lemma TrimKeepsLower(s: string)
    requires IsLower(s)
    ensures IsLower(Trim(s))
  {
    var start := TrimStart(s);
    SliceKeepsLower(s, |s| - |start|, |s|);
    assert start == s[|s| - |start|..|s|];
    var e := TrimEnd(start);
    SliceKeepsLower(start, 0, |e|);
    assert e == start[0..|e|];
  }

  /** Normalising twice is normalising once, so a stored address is its own normal form. */
  lemma NormalizeIdempotent(raw: Option<string>)
    ensures Normalize(Some(Normalize(raw))) == Normalize(raw)
  {
    var e := Normalize(raw);
    LowerIsLower(OrElse(raw, ""));
    TrimKeepsLower(Lower(OrElse(raw, "")));
    assert OrElse(Some(e), "") == e;
    LowerOfLower(e);
    TrimStartOfTrimmed(e);
    TrimEndOfTrimmed(e);
  }

  predicate AllowedEmail(e: string) {
    EndsWith(e, StudentDomain)
  }

  /** Why a registration was refused. */
  datatype Refusal = WrongDomain | EmailTaken | RegNumberTaken | DuplicateDetails | RegistrationFailed

  function RefusalStatus(f: Refusal): Code {
    if f == RegistrationFailed then ServerError else BadRequest
  }

  /**
   * The message for a unique-key violation: `target` is the violated key's field list
   * when the store reports one as an array, `None` otherwise.
   */
  function DuplicateKeyMessage(target: Option<seq<string>>): (f: Refusal)
    ensures target.Some? && "email" in target.value ==> f == EmailTaken
    ensures target.Some? && "email" !in target.value && "regNumber" in target.value ==> f == RegNumberTaken
    ensures target.None? || ("email" !in target.value && "regNumber" !in target.value) ==> f == DuplicateDetails
  {
    if target.Some? && "email" in target.value then EmailTaken
    else if target.Some? && "regNumber" in target.value then RegNumberTaken
    else DuplicateDetails
  }

  datatype Registration = Registered(user: User) | Refused(why: Refusal)

  /** The body of a registration request. */
  datatype SignUp = SignUp(email: Option<string>, password: Option<string>, fullName: Option<string>,
                           regNumber: Option<string>)

  predicate EmailUsed(users: map<Id, User>, e: string) {
    exists k | k in users :: users[k].email == e
  }

  predicate RegNumberUsed(users: map<Id, User>, n: string) {
    exists k | k in users :: users[k].regNumber == n
  }

  /** Accounts are filed under their ids, and no two share an e-mail address or a registration number. */
  predicate UniqueAccounts(users: map<Id, User>) {
    && (forall k | k in users :: users[k].id == k)
    && (forall a, b | a in users && b in users && users[a].email == users[b].email :: a == b)
    && (forall a, b | a in users && b in users && users[a].regNumber == users[b].regNumber :: a == b)
  }

  /** Adding an account whose address and registration number are both unused keeps accounts unique. */
  lemma AddKeepsUnique(users: map<Id, User>, u: User)
    requires UniqueAccounts(users) && u.id !in users
    requires !EmailUsed(users, u.email) && !RegNumberUsed(users, u.regNumber)
    ensures UniqueAccounts(users[u.id := u])
  {
  }

  /** The account a successful registration stores. */
  function NewStudent(id: Id, f: SignUp, hash: string, tempRegNumber: string, trust: int): (u: User)
    ensures u.email == Normalize(f.email) && u.role == Student
    ensures Given(f.fullName) ==> u.fullName == f.fullName.value
    ensures !Given(f.fullName) ==> u.fullName == "Unknown"
    ensures Given(f.regNumber) ==> u.regNumber == f.regNumber.value
    ensures !Given(f.regNumber) ==> u.regNumber == tempRegNumber
  {
    User(id, Normalize(f.email), hash, Student, trust, OrElse(f.fullName, "Unknown"), OrElse(f.regNumber, tempRegNumber))
  }

  /**
   * What register answers for the account `u` it would store: 400 unless the
   * normalised address is a university one; hashing an absent password fails (500); a
   * clash on the address or on the registration number is refused with its own message;
   * otherwise the account is created.
   */
  function Admission(users: map<Id, User>, f: SignUp, u: User): (r: Registration)
    ensures !AllowedEmail(u.email) ==> r == Refused(WrongDomain)
    ensures AllowedEmail(u.email) && f.password.None? ==> r == Refused(RegistrationFailed)
    ensures AllowedEmail(u.email) && f.password.Some? && EmailUsed(users, u.email) ==> r == Refused(EmailTaken)
    ensures (AllowedEmail(u.email) && f.password.Some? && !EmailUsed(users, u.email)
             && RegNumberUsed(users, u.regNumber)) ==> r == Refused(RegNumberTaken)
    ensures r.Registered? <==>
              AllowedEmail(u.email) && f.password.Some? && !EmailUsed(users, u.email) && !RegNumberUsed(users, u.regNumber)
    ensures r.Registered? ==> r.user == u
  {
    if !AllowedEmail(u.email) then Refused(WrongDomain)
    else if f.password.None? then Refused(RegistrationFailed)
    else if EmailUsed(users, u.email) then Refused(DuplicateKeyMessage(Some(["email"])))
    else if RegNumberUsed(users, u.regNumber) then Refused(DuplicateKeyMessage(Some(["regNumber"])))
    else Registered(u)
  }

  /**
   * register: answers `Admission` for the new student account and stores it only when
   * admitted; account uniqueness is kept. `hash` is the password's hash,
   * `tempRegNumber` the time-based fallback registration number, `trust` the initial
   * trust score.
   */
  method Register(db: Db, f: SignUp, hash: string, tempRegNumber: string, trust: int, freshId: Id)
    returns (r: Registration)
    requires freshId !in db.users
    modifies db
    ensures r == Admission(old(db.users), f, NewStudent(freshId, f, hash, tempRegNumber, trust))
    ensures r.Registered? ==> db.users == old(db.users)[freshId := r.user]
    ensures r.Refused? ==> db.users == old(db.users)
    ensures old(UniqueAccounts(db.users)) ==> UniqueAccounts(db.users)
    ensures db.Snapshot() == old(db.Snapshot()) && db.ratings == old(db.ratings) && db.messages == old(db.messages)
  {
    var u := NewStudent(freshId, f, hash, tempRegNumber, trust);
    if !AllowedEmail(u.email) {
      r := Refused(WrongDomain);
    } else if f.password.None? {
      r := Refused(RegistrationFailed);
    } else if EmailUsed(db.users, u.email) {
      r := Refused(DuplicateKeyMessage(Some(["email"])));
    } else if RegNumberUsed(db.users, u.regNumber) {
      r := Refused(DuplicateKeyMessage(Some(["regNumber"])));
    } else {
      if UniqueAccounts(db.users) {
        AddKeepsUnique(db.users, u);
      }
      db.users := db.users[freshId := u];
      r := Registered(u);
    }
  }

  /** A registered student's address is a normalised university address. */
  lemma RegisteredEmailNormal(freshId: Id, f: SignUp, hash: string, tempRegNumber: string, trust: int)
    requires AllowedEmail(NewStudent(freshId, f, hash, tempRegNumber, trust).email)
    ensures var e := NewStudent(freshId, f, hash, tempRegNumber, trust).email;
            Normalize(Some(e)) == e && EndsWith(e, "@srmap.edu.in")
  {
    NormalizeIdempotent(f.email);
  }

  datatype Credential = Credential(username: string, password: string)

  /** The profile of an account provisioned at login. */
  datatype Account = Account(email: string, fullName: string, regNumber: string)

  /**
   * The login configuration: the admin credential and account, and the member
   * credential table, in order.
   */
  datatype AuthConfig = AuthConfig(admin: Credential, adminAccount: Account, members: seq<Credential>)

  /** `MEMBER_CREDS.find(...)`: the first entry with this username and password. */
  function MemberFor(members: seq<Credential>, identifier: Option<string>, password: Option<string>)
    : (r: Option<Credential>)
    ensures r.Some? ==> r.value in members && identifier == Some(r.value.username) && password == Some(r.value.password)
    ensures r.None? ==> forall m | m in members :: !(identifier == Some(m.username) && password == Some(m.password))
  {
    if members == [] then None
    else if identifier == Some(members[0].username) && password == Some(members[0].password) then Some(members[0])
    else MemberFor(members[1..], identifier, password)
  }

  /** The account a member gets on first login. */
  function MemberAccount(identifier: string): (a: Account)
    ensures a.email == identifier + "@srmswap.com"
    ensures a.regNumber == "MEM_" + Upper(identifier)
    ensures a.fullName == "Team Member (" + identifier + ")"
  {
    Account(identifier + "@srmswap.com", "Team Member (" + identifier + ")", "MEM_" + Upper(identifier))
  }

  /**
   * The outcome of an upsert by e-mail with an empty update: an existing account with
   * that address is returned untouched; otherwise a new one is created, unless its
   * registration number is taken, which fails the request (500).
   */
  predicate Provisioned(before: map<Id, User>, after: map<Id, User>, r: Reply<User>,
                        a: Account, role: Role, hash: string, trust: int, freshId: Id)
  {
    if EmailUsed(before, a.email) then
      r.Ok? && r.value in before.Values && r.value.email == a.email && after == before
    else if RegNumberUsed(before, a.regNumber) then
      r == Fail(ServerError) && after == before
    else
      r == Ok(User(freshId, a.email, hash, role, trust, a.fullName, a.regNumber)) && after == before[freshId := r.value]
  }

  method Provision(db: Db, a: Account, role: Role, hash: string, trust: int, freshId: Id) returns (r: Reply<User>)
    requires freshId !in db.users
    modifies db
    ensures Provisioned(old(db.users), db.users, r, a, role, hash, trust, freshId)
    ensures db.Snapshot() == old(db.Snapshot()) && db.ratings == old(db.ratings) && db.messages == old(db.messages)
  {
    if EmailUsed(db.users, a.email) {
      var k :| k in db.users && db.users[k].email == a.email;
      return Ok(db.users[k]);
    }
    if RegNumberUsed(db.users, a.regNumber) {
      return Fail(ServerError);
    }
    var u := User(freshId, a.email, hash, role, trust, a.fullName, a.regNumber);
    db.users := db.users[freshId := u];
    r := Ok(u);
  }

  /**
   * login. ADMIN: 401 unless both the identifier and the password are the admin's,
   * then the admin account is provisioned. MEMBER: 401 unless the pair is in the member
   * table, then the member's account is provisioned. Any other role: the identifier is
   * normalised (an absent one throws, 500) and looked up; 401 for no such account or a
   * wrong password. `matches` is the password-hash comparison; comparing an absent
   * password throws (500).
   */
  method Login(db: Db, cfg: AuthConfig, identifier: Option<string>, password: Option<string>, role: Option<string>,
               matches: (string, string) -> bool, hash: string, trust: int, freshId: Id)
    returns (r: Reply<User>)
    requires freshId !in db.users
    modifies db
    ensures role == Some("ADMIN") && !(identifier == Some(cfg.admin.username) && password == Some(cfg.admin.password)) ==>
              r == Fail(Unauthorized) && db.users == old(db.users)
    ensures role == Some("ADMIN") && identifier == Some(cfg.admin.username) && password == Some(cfg.admin.password) ==>
              Provisioned(old(db.users), db.users, r, cfg.adminAccount, Admin, hash, trust, freshId)
    ensures role == Some("MEMBER") && MemberFor(cfg.members, identifier, password).None? ==>
              r == Fail(Unauthorized) && db.users == old(db.users)
    ensures role == Some("MEMBER") && MemberFor(cfg.members, identifier, password).Some? ==>
              Provisioned(old(db.users), db.users, r, MemberAccount(identifier.value), Member, hash, trust, freshId)
    ensures role != Some("ADMIN") && role != Some("MEMBER") ==> db.users == old(db.users)
    ensures role != Some("ADMIN") && role != Some("MEMBER") && identifier.None? ==> r == Fail(ServerError)
    ensures role != Some("ADMIN") && role != Some("MEMBER") && identifier.Some? ==>
              var e := Trim(Lower(identifier.value));
              && (!EmailUsed(db.users, e) ==> r == Fail(Unauthorized))
              && (r.Ok? ==> r.value in db.users.Values && r.value.email == e
                            && password.Some? && matches(password.value, r.value.passwordHash))
              && (UniqueAccounts(db.users) ==>
                    forall k | k in db.users && db.users[k].email == e ::
                      && (password.None? ==> r == Fail(ServerError))
                      && (password.Some? && !matches(password.value, db.users[k].passwordHash) ==> r == Fail(Unauthorized))
                      && (password.Some? && matches(password.value, db.users[k].passwordHash) ==> r == Ok(db.users[k])))
    ensures db.Snapshot() == old(db.Snapshot()) && db.ratings == old(db.ratings) && db.messages == old(db.messages)
  {
    if role == Some("ADMIN") {
      if identifier != Some(cfg.admin.username) || password != Some(cfg.admin.password) {
        return Fail(Unauthorized);
      }
      r := Provision(db, cfg.adminAccount, Admin, hash, trust, freshId);
    } else if role == Some("MEMBER") {
      var member := MemberFor(cfg.members, identifier, password);
      if member.None? {
        return Fail(Unauthorized);
      }
      r := Provision(db, MemberAccount(identifier.value), Member, hash, trust, freshId);
    } else {
      if identifier.None? {
        return Fail(ServerError);
      }
      var e := Trim(Lower(identifier.value));
      if !EmailUsed(db.users, e) {
        return Fail(Unauthorized);
      }
      var k :| k in db.users && db.users[k].email == e;
      if password.None? {
        return Fail(ServerError);
      }
      if !matches(password.value, db.users[k].passwordHash) {
        return Fail(Unauthorized);
      }
      r := Ok(db.users[k]);
    }
  }

  /** The member table is matched on the pair: a known username with another entry's password is refused. */
  lemma MemberNeedsOwnPassword(members: seq<Credential>, name: string, password: string)
    requires forall i, j | 0 <= i < |members| && 0 <= j < |members| && members[i].username == members[j].username :: i == j
    requires exists i | 0 <= i < |members| :: members[i].username == name && members[i].password != password
    ensures MemberFor(members, Some(name), Some(password)).None?
  {
  }
}
