/**
 * The registration endpoint `POST /api/auth/register`: it parses the JSON
 * body, validates `{ name, email, password }`, refuses an email that is
 * already registered, hashes the password and creates the user, answering
 * 201, 400, 409 or 500.
 *
 * The user table is a map keyed by email. The foreign calls are
 * parameters: the email-format check of the schema library is a predicate
 * `isValidEmail`, the password hash is a function `hash`, and which of the
 * database and hashing calls throw on this request is a `Faults` record.
 */
module Register {
  import opened Wrappers

  // ---------------------------------------------------------------------
  // The request body and its validation (`userSchema`)
  // ---------------------------------------------------------------------

  /** One property of the JSON body: absent, present but not a string, or a string. */
  datatype Field = Missing | NotString | Str(s: string)

  /** A parsed JSON body: something other than an object, or an object with the three properties. */
  datatype Json = NotObject | Object(name: Field, email: Field, password: Field)

  /** What `request.json()` gives: it throws on a body that is not JSON. */
  datatype RequestBody = Malformed | Parsed(json: Json)

  const NameMinLength: nat := 3
  const PasswordMinLength: nat := 6

  /** Where a validation issue is: the body itself or one of its properties. */
  datatype Path = Root | Name | Email | Password

  /** The kinds of issue the schema reports. */
  datatype IssueKind =
    | Required                 // the property is absent
    | InvalidType              // not an object, or a property that is not a string
    | TooSmall(minimum: nat)   // a string shorter than the minimum
    | InvalidEmail             // an email the format check refuses

  datatype Issue = Issue(path: Path, kind: IssueKind)

  /** The schema's own messages for its length and email checks. */
  const NameTooShortMessage: string := "Name must be at least 3 characters"
  const InvalidEmailMessage: string := "Invalid email address"
  const PasswordTooShortMessage: string := "Password must be at least 6 characters"

  /** The message of an issue; the schema's own messages for the length and email checks. */
  function IssueMessage(issue: Issue): string {
    match issue.kind
    case Required => "Required"
    case InvalidType => "Expected string"
    case InvalidEmail => InvalidEmailMessage
    case TooSmall(_) => if issue.path == Name then NameTooShortMessage else PasswordTooShortMessage
  }

  /** The messages of a list of issues, in order. */
  function Messages(issues: seq<Issue>): seq<string> {
    seq(|issues|, i requires 0 <= i < |issues| => IssueMessage(issues[i]))
  }

  /** The validated fields, `validation.data`. */
  datatype Credentials = Credentials(name: string, email: string, password: string)

  /** The issues of one string property, given the check on its value. */
  function FieldIssues(path: Path, field: Field, ok: string -> bool, failure: IssueKind): seq<Issue> {
    match field
    case Missing => [Issue(path, Required)]
    case NotString => [Issue(path, InvalidType)]
    case Str(s) => if ok(s) then [] else [Issue(path, failure)]
  }

  /** Whether the body is fine at `path` under `userSchema`. */
  predicate FieldValid(json: Json, path: Path, isValidEmail: string -> bool) {
    json.Object? &&
    match path
    case Root => true
    case Name => json.name.Str? && |json.name.s| >= NameMinLength
    case Email => json.email.Str? && isValidEmail(json.email.s)
    case Password => json.password.Str? && |json.password.s| >= PasswordMinLength
  }

  /** The body satisfies `userSchema`. */
  predicate Valid(json: Json, isValidEmail: string -> bool) {
    FieldValid(json, Name, isValidEmail) && FieldValid(json, Email, isValidEmail)
    && FieldValid(json, Password, isValidEmail)
  }

  /**
   * `userSchema.safeParse(body)`: the three strings when every check
   * passes; otherwise, for a body that is not an object, one issue at the
   * root, and for an object one issue for each property that fails and only
   * for those.
   */
  function Validate(json: Json, isValidEmail: string -> bool): (r: Result<Credentials, seq<Issue>>)
    ensures r.Success? <==> Valid(json, isValidEmail)
    ensures r.Success? ==> r.value == Credentials(json.name.s, json.email.s, json.password.s)
    ensures r.Failure? ==> |r.error| >= 1
    ensures r.Failure? ==> forall i :: 0 <= i < |r.error| ==> !FieldValid(json, r.error[i].path, isValidEmail)
    ensures json.NotObject? ==> r == Failure([Issue(Root, InvalidType)])
    ensures json.Object? && r.Failure? ==> forall p: Path :: p != Root && !FieldValid(json, p, isValidEmail) ==>
              exists i :: 0 <= i < |r.error| && r.error[i].path == p
  {
    match json
    case NotObject => Failure([Issue(Root, InvalidType)])
    case Object(name, email, password) =>
      var nameIssues := FieldIssues(Name, name, s => |s| >= NameMinLength, TooSmall(NameMinLength));
      var emailIssues := FieldIssues(Email, email, isValidEmail, InvalidEmail);
      var passwordIssues := FieldIssues(Password, password, s => |s| >= PasswordMinLength, TooSmall(PasswordMinLength));
      var issues := nameIssues + emailIssues + passwordIssues;
      if issues == [] then Success(Credentials(name.s, email.s, password.s))
      else
        assert !FieldValid(json, Name, isValidEmail) ==> issues[0].path == Name;
        assert !FieldValid(json, Email, isValidEmail) ==> issues[|nameIssues|].path == Email;
        assert !FieldValid(json, Password, isValidEmail)
          ==> issues[|nameIssues| + |emailIssues|].path == Password;
        Failure(issues)
  }

  /**
   * For a body of three strings, the rejected body's messages are the
   * schema's messages of the failing checks, in the order name, email,
   * password, and nothing else.
   */
  lemma StringFieldMessages(name: string, email: string, password: string, isValidEmail: string -> bool)
    ensures var r := Validate(Object(Str(name), Str(email), Str(password)), isValidEmail);
      r.Failure? ==>
        Messages(r.error)
        == (if |name| < NameMinLength then [NameTooShortMessage] else [])
           + (if isValidEmail(email) then [] else [InvalidEmailMessage])
           + (if |password| < PasswordMinLength then [PasswordTooShortMessage] else [])
  {
  }

  // ---------------------------------------------------------------------
  // The handler
  // ---------------------------------------------------------------------

  /** A row of the user table; `password` holds the hash. */
  datatype User = User(name: string, email: string, password: string)

  /** Which foreign call throws on this request: `findUnique`, `bcrypt.hash` or `create`. */
  datatype Faults = Faults(lookupThrows: bool, hashThrows: bool, createThrows: bool)

  const NoFaults: Faults := Faults(false, false, false)

  const DuplicateMessage: string := "User with this email already exists"
  const UnexpectedMessage: string := "An unexpected error occurred."
  const CreatedMessage: string := "User created successfully"

  /** The JSON the handler answers with. */
  datatype ResponseBody =
    | Issues(issues: seq<Issue>)
    | ErrorMessage(error: string)
    | Created(name: string, email: string, message: string)

  datatype Response = Response(status: int, body: ResponseBody)

  /** The generic answer of the `catch` block. */
  const Unexpected: Response := Response(500, ErrorMessage(UnexpectedMessage))

  /**
   * The handler on one request: the response and the user table
   * afterwards. The table changes only with a 201.
   */
  function Handle(users: map<string, User>, request: RequestBody, faults: Faults,
                  isValidEmail: string -> bool, hash: string -> string): (r: (Response, map<string, User>))
    ensures r.0.status in {201, 400, 409, 500}
    ensures r.0.status != 201 ==> r.1 == users
  {
    if request.Malformed? then (Unexpected, users)
    else match Validate(request.json, isValidEmail)
      case Failure(issues) => (Response(400, Issues(issues)), users)
      case Success(c) =>
        if faults.lookupThrows then (Unexpected, users)
        else if c.email in users then (Response(409, ErrorMessage(DuplicateMessage)), users)
        else if faults.hashThrows || faults.createThrows then (Unexpected, users)
        else
          var user := User(c.name, c.email, hash(c.password));
          (Response(201, Created(user.name, user.email, CreatedMessage)), users[c.email := user])
  }

  /** The Prisma user table, shared by every request. */
  class UserStore {
    var users: map<string, User>

    constructor (users: map<string, User>)
      ensures this.users == users
    {
      this.users := users;
    }

    /** `POST(request)`, with its early returns and its `catch` block. */
    method Post(request: RequestBody, faults: Faults, isValidEmail: string -> bool, hash: string -> string)
      returns (response: Response)
      modifies this
      ensures (response, users) == Handle(old(users), request, faults, isValidEmail, hash)
    {
      if request.Malformed? {
        return Unexpected;
      }
      var validation := Validate(request.json, isValidEmail);
      if validation.Failure? {
        return Response(400, Issues(validation.error));
      }
      var name, email, password := validation.value.name, validation.value.email, validation.value.password;

      if faults.lookupThrows {
        return Unexpected;
      }
      var existingUser := if email in users then Some(users[email]) else None;
      if existingUser.Some? {
        return Response(409, ErrorMessage(DuplicateMessage));
      }

      if faults.hashThrows {
        return Unexpected;
      }
      var hashedPassword := hash(password);

      if faults.createThrows {
        return Unexpected;
      }
      var user := User(name, email, hashedPassword);
      users := users[email := user];

      return Response(201, Created(user.name, user.email, CreatedMessage));
    }
  }

  // ---------------------------------------------------------------------
  // Properties of the handler
  // ---------------------------------------------------------------------

  /**
   * A body that fails the schema gets 400 with its issues and leaves the
   * table alone, whatever the table holds and whatever would have thrown
   * later: validation comes before the duplicate lookup.
   */
  lemma InvalidBodyRejected(users: map<string, User>, json: Json, faults: Faults,
                            isValidEmail: string -> bool, hash: string -> string)
    requires !Valid(json, isValidEmail)
    ensures var r := Handle(users, Parsed(json), faults, isValidEmail, hash);
      r.0.status == 400 && r.0.body.Issues? && |r.0.body.issues| >= 1 && r.1 == users
    ensures forall other: map<string, User>, f: Faults ::
      Handle(other, Parsed(json), f, isValidEmail, hash).0 == Handle(users, Parsed(json), faults, isValidEmail, hash).0
  {
  }

  /** A name shorter than 3, or a password shorter than 6, is enough for a 400. */
  lemma ShortFieldsRejected(users: map<string, User>, name: string, email: string, password: string,
                            faults: Faults, isValidEmail: string -> bool, hash: string -> string)
    requires |name| < NameMinLength || |password| < PasswordMinLength
    ensures Handle(users, Parsed(Object(Str(name), Str(email), Str(password))), faults, isValidEmail, hash)
         == (Response(400, Issues(Validate(Object(Str(name), Str(email), Str(password)), isValidEmail).error)), users)
  {
  }

  /** A valid body whose email is registered gets 409 and leaves the table alone. */
  lemma DuplicateRejected(users: map<string, User>, json: Json, isValidEmail: string -> bool,
                          hash: string -> string, faults: Faults)
    requires Valid(json, isValidEmail) && !faults.lookupThrows
    requires json.email.s in users
    ensures Handle(users, Parsed(json), faults, isValidEmail, hash)
         == (Response(409, ErrorMessage(DuplicateMessage)), users)
  {
  }

  /**
   * A valid body with a new email and no failing call adds exactly one user
   * under that email, with the given name and the hash of the password,
   * keeps every other user, and answers 201 with only the name and email.
   */
  lemma SuccessAddsOneUser(users: map<string, User>, json: Json, isValidEmail: string -> bool,
                           hash: string -> string)
    requires Valid(json, isValidEmail) && json.email.s !in users
    ensures var r := Handle(users, Parsed(json), NoFaults, isValidEmail, hash);
      && r.0 == Response(201, Created(json.name.s, json.email.s, CreatedMessage))
      && r.1.Keys == users.Keys + {json.email.s}
      && |r.1| == |users| + 1
      && r.1[json.email.s] == User(json.name.s, json.email.s, hash(json.password.s))
      && forall e :: e in users ==> r.1[e] == users[e]
  {
  }

  /** The stored password is the hash, never the plaintext when the hash differs from it. */
  lemma StoresOnlyTheHash(users: map<string, User>, json: Json, faults: Faults,
                          isValidEmail: string -> bool, hash: string -> string)
    requires Handle(users, Parsed(json), faults, isValidEmail, hash).0.status == 201
    ensures Valid(json, isValidEmail)
    ensures var stored := Handle(users, Parsed(json), faults, isValidEmail, hash).1[json.email.s];
      stored.password == hash(json.password.s)
      && (hash(json.password.s) != json.password.s ==> stored.password != json.password.s)
  {
  }

  /** Registering the same valid body twice answers 201 and then 409. */
  lemma RegisterTwice(users: map<string, User>, json: Json, isValidEmail: string -> bool,
                      hash: string -> string)
    requires Valid(json, isValidEmail) && json.email.s !in users
    ensures var first := Handle(users, Parsed(json), NoFaults, isValidEmail, hash);
      var second := Handle(first.1, Parsed(json), NoFaults, isValidEmail, hash);
      first.0.status == 201 && second.0.status == 409 && second.1 == first.1
  {
    var first := Handle(users, Parsed(json), NoFaults, isValidEmail, hash);
    assert json.email.s in first.1;
  }

  /**
   * A body that is not JSON, or a lookup, hash or create that throws once
   * reached, gives the generic 500 and leaves the table alone.
   */
  lemma FailuresAreGeneric500(users: map<string, User>, request: RequestBody, faults: Faults,
                              isValidEmail: string -> bool, hash: string -> string)
    requires
      || request.Malformed?
      || (Valid(request.json, isValidEmail)
          && (faults.lookupThrows
              || (request.json.email.s !in users && (faults.hashThrows || faults.createThrows))))
    ensures Handle(users, request, faults, isValidEmail, hash) == (Unexpected, users)
  {
  }

  /** The handler answers 201 exactly for a JSON body that is valid, new, and meets no failing call. */
  lemma CreatedIff(users: map<string, User>, request: RequestBody, faults: Faults,
                   isValidEmail: string -> bool, hash: string -> string)
    ensures Handle(users, request, faults, isValidEmail, hash).0.status == 201
        <==> && request.Parsed?
             && Valid(request.json, isValidEmail)
             && request.json.email.s !in users
             && faults == NoFaults
  {
  }
}
