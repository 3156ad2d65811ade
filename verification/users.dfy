/**
 * User accounts (`src/controller/UserController.ts`): registration and
 * account creation, the password-reset tokens, the groups and project
 * roles a user holds, and the removal of users from a project's tasks
 * and roles.
 */
module Users {
  import opened Common
  import opened AuthService
  import opened Tasks
  import opened ProjectRoles

  /** A stored password: the hash of its plain text (the hash is kept abstract). */
  datatype Secret = HashOf(plain: string)

  /**
   * A user row with the relations the controller loads and pushes to:
   * group ids, project-role ids, and the ids of the projects the user
   * participates in or manages, in the order they were added.
   */
  datatype Account = Account(
    id: UserId,
    username: string,
    email: string,
    password: Secret,
    firstName: Option<string>,
    lastName: Option<string>,
    groups: seq<int>,
    projectRoles: seq<int>,
    participating: seq<int>,
    managing: seq<int>)

  /** The body of a registration or creation request; an absent text is "". */
  datatype Registration = Registration(
    username: string,
    email: string,
    password: string,
    firstName: Option<string>,
    lastName: Option<string>)

  /** The column a user row is looked up by. */
  datatype AccountKey = ById(id: UserId) | ByEmail(email: string) | ByUsername(username: string)

  predicate Matches(a: Account, key: AccountKey)
  {
    match key
    case ById(id) => a.id == id
    case ByEmail(e) => a.email == e
    case ByUsername(u) => a.username == u
  }

  /** `findOne` on the user table by id, email or username: the first matching row. */
  function AccountIndex(accounts: seq<Account>, key: AccountKey): (k: Option<nat>)
    ensures k.Some? ==> k.value < |accounts| && Matches(accounts[k.value], key)
    ensures k.Some? ==> forall j :: 0 <= j < k.value ==> !Matches(accounts[j], key)
    ensures k.None? ==> forall j :: 0 <= j < |accounts| ==> !Matches(accounts[j], key)
  {
    FindIndex(accounts, (a: Account) => Matches(a, key))
  }

  /** No two accounts share an email address. */
  predicate UniqueEmails(accounts: seq<Account>)
  {
    forall i, j :: 0 <= i < j < |accounts| ==> accounts[i].email != accounts[j].email
  }

  /** A new account with no relations. */
  function NewAccount(id: UserId, req: Registration, password: Secret): Account
  {
    Account(id, req.username, req.email, password, req.firstName, req.lastName, [], [], [], [])
  }

  // ---------------------------------------------------------------------
  // Registration
  // ---------------------------------------------------------------------

  /** `register`: username, email and password are required; the email must be new. */
  function RegisterSpec(accounts: seq<Account>, req: Registration, newId: UserId): (Status, seq<Account>)
  {
    if req.username == "" || req.email == "" || req.password == "" then (BadRequest, accounts)
    else if AccountIndex(accounts, ByEmail(req.email)).Some? then (BadRequest, accounts)
    else (Created, accounts + [NewAccount(newId, req, HashOf(req.password))])
  }

  /** The temporary password of a created account: the first eight characters of a UUID. */
  function TemporaryPassword(uuid: string): (r: string)
    requires |uuid| >= 8
    ensures |r| == 8 && r == uuid[..8]
  {
    uuid[..8]
  }

  /**
   * `createUser`: username and email are required, the email must be new,
   * and the password is a temporary one cut from `uuid`.
   */
  function CreateUserSpec(accounts: seq<Account>, req: Registration, newId: UserId, uuid: string): (Status, seq<Account>)
    requires |uuid| >= 8
  {
    if req.username == "" || req.email == "" then (BadRequest, accounts)
    else if AccountIndex(accounts, ByEmail(req.email)).Some? then (BadRequest, accounts)
    else (Created, accounts + [NewAccount(newId, req, HashOf(TemporaryPassword(uuid)))])
  }

  /**
   * A registration is accepted exactly when the three texts are given and
   * the email is unused; the new account is appended, holds the hash of
   * the given password, and is the one the email now finds.
   */
  lemma RegisterMeaning(accounts: seq<Account>, req: Registration, newId: UserId)
    ensures RegisterSpec(accounts, req, newId).0 == Created <==>
      req.username != "" && req.email != "" && req.password != "" &&
      forall j :: 0 <= j < |accounts| ==> accounts[j].email != req.email
    ensures RegisterSpec(accounts, req, newId).0 != Created ==>
      RegisterSpec(accounts, req, newId) == (BadRequest, accounts)
    ensures RegisterSpec(accounts, req, newId).0 == Created ==> (
      var after := RegisterSpec(accounts, req, newId).1;
      |after| == |accounts| + 1 && after[..|accounts|] == accounts &&
      AccountIndex(after, ByEmail(req.email)) == Some(|accounts|) &&
      after[|accounts|].id == newId && after[|accounts|].password == HashOf(req.password))
  {
    var after := accounts + [NewAccount(newId, req, HashOf(req.password))];
    if RegisterSpec(accounts, req, newId).0 == Created {
      assert after[..|accounts|] == accounts;
      FindFirstAppended(accounts, NewAccount(newId, req, HashOf(req.password)));
    }
  }

  /** An email absent from `accounts` finds the appended account. */
  lemma FindFirstAppended(accounts: seq<Account>, a: Account)
    requires forall j :: 0 <= j < |accounts| ==> accounts[j].email != a.email
    ensures AccountIndex(accounts + [a], ByEmail(a.email)) == Some(|accounts|)
  {
    var k := AccountIndex(accounts + [a], ByEmail(a.email));
    assert (accounts + [a])[|accounts|].email == a.email;
  }

  /** Registration and account creation keep email addresses unique. */
  lemma CreationKeepsEmailsUnique(accounts: seq<Account>, req: Registration, newId: UserId, uuid: string)
    requires |uuid| >= 8
    requires UniqueEmails(accounts)
    ensures UniqueEmails(RegisterSpec(accounts, req, newId).1)
    ensures UniqueEmails(CreateUserSpec(accounts, req, newId, uuid).1)
  {
  }

  /** The same email cannot be registered twice. */
  lemma SecondRegistrationRefused(accounts: seq<Account>, req: Registration, other: Registration, id1: UserId, id2: UserId)
    requires RegisterSpec(accounts, req, id1).0 == Created
    requires other.email == req.email
    ensures RegisterSpec(RegisterSpec(accounts, req, id1).1, other, id2) == (BadRequest, RegisterSpec(accounts, req, id1).1)
  {
    RegisterMeaning(accounts, req, id1);
  }

  /** A created account is accepted without a password and gets an eight-character one. */
  lemma CreatedAccountPassword(accounts: seq<Account>, req: Registration, newId: UserId, uuid: string)
    requires |uuid| >= 8
    ensures CreateUserSpec(accounts, req, newId, uuid).0 == Created <==>
      req.username != "" && req.email != "" && AccountIndex(accounts, ByEmail(req.email)).None?
    ensures CreateUserSpec(accounts, req, newId, uuid).0 == Created ==>
      var after := CreateUserSpec(accounts, req, newId, uuid).1;
      |after| == |accounts| + 1 && |after[|accounts|].password.plain| == 8 && after[|accounts|].email == req.email
  {
  }

  // ---------------------------------------------------------------------
  // Password reset
  // ---------------------------------------------------------------------

  /** A cached reset token: whose password it resets, and until when (milliseconds). */
  datatype ResetEntry = ResetEntry(userId: UserId, expiresAt: int)

  /** A reset link expires fifteen minutes after it was issued. */
  const ResetWindow: int := 15 * 60 * 1000

  /** The cache key of a token. */
  function TokenKey(token: string): string
  {
    "resetToken:" + token
  }

  /**
   * `requestPasswordReset`: an email or a username is required; the email,
   * when given, selects the user, else the username; the token is stored
   * with its expiry. The link is then mailed to the request's email: a
   * request with only a username has no recipient, the mailer refuses it,
   * and the answer is 500 with the token already stored.
   */
  function RequestResetSpec(accounts: seq<Account>, cache: map<string, ResetEntry>, email: string, username: string,
                            token: string, now: int): (r: (Status, map<string, ResetEntry>))
    ensures r.0 in {Ok, BadRequest, NotFound, ServerError}
    ensures r.0 == BadRequest <==> email == "" && username == ""
    ensures r.0 == Ok ==> email != ""
    ensures r.0 == ServerError ==> email == ""
    ensures r.0 in {BadRequest, NotFound} ==> r.1 == cache
    ensures r.0 in {Ok, ServerError} ==>
      r.1.Keys == cache.Keys + {TokenKey(token)} && r.1[TokenKey(token)].expiresAt == now + ResetWindow &&
      (forall key :: key in cache && key != TokenKey(token) ==> r.1[key] == cache[key]) &&
      exists j :: 0 <= j < |accounts| && accounts[j].id == r.1[TokenKey(token)].userId &&
        (if email != "" then accounts[j].email == email else accounts[j].username == username)
  {
    if email == "" && username == "" then (BadRequest, cache)
    else
      var k := if email != "" then AccountIndex(accounts, ByEmail(email)) else AccountIndex(accounts, ByUsername(username));
      if k.None? then (NotFound, cache)
      else
        var stored := cache[TokenKey(token) := ResetEntry(accounts[k.value].id, now + ResetWindow)];
        if email == "" then (ServerError, stored) else (Ok, stored)
  }

  /**
   * `resetPassword`: token and new password are required and the token
   * must be cached; before its expiry the user's password is replaced and
   * the token dropped, after it the token is dropped and the link is gone.
   */
  function ResetPasswordSpec(accounts: seq<Account>, cache: map<string, ResetEntry>, token: string, newPassword: string,
                             now: int): (Status, seq<Account>, map<string, ResetEntry>)
  {
    if token == "" || newPassword == "" then (BadRequest, accounts, cache)
    else if TokenKey(token) !in cache then (BadRequest, accounts, cache)
    else
      var entry := cache[TokenKey(token)];
      if now < entry.expiresAt then
        var k := AccountIndex(accounts, ById(entry.userId));
        if k.None? then (NotFound, accounts, cache)
        else (Ok, accounts[k.value := accounts[k.value].(password := HashOf(newPassword))], cache - {TokenKey(token)})
      else (Gone, accounts, cache - {TokenKey(token)})
  }

  /**
   * A token used within fifteen minutes of its request resets the password
   * of the account it was issued for, and cannot be used again. This holds
   * for the token a username-only request stores before its 500.
   */
  lemma ResetWithinWindow(accounts: seq<Account>, cache: map<string, ResetEntry>, email: string, username: string,
                          token: string, issued: int, newPassword: string, now: int)
    requires RequestResetSpec(accounts, cache, email, username, token, issued).0 in {Ok, ServerError}
    requires token != "" && newPassword != ""
    requires now < issued + ResetWindow
    ensures var c := RequestResetSpec(accounts, cache, email, username, token, issued).1;
      var user := c[TokenKey(token)].userId;
      var (status, after, c2) := ResetPasswordSpec(accounts, c, token, newPassword, now);
      AccountIndex(accounts, ById(user)).Some? && status == Ok &&
      after[AccountIndex(accounts, ById(user)).value].password == HashOf(newPassword) &&
      TokenKey(token) !in c2 &&
      ResetPasswordSpec(after, c2, token, newPassword, now).0 == BadRequest
  {
    var k := if email != "" then AccountIndex(accounts, ByEmail(email)) else AccountIndex(accounts, ByUsername(username));
    assert AccountIndex(accounts, ById(accounts[k.value].id)).Some?;
  }

  /** A token used fifteen minutes or more after its request answers 410 and is dropped. */
  lemma ExpiredLinkGone(accounts: seq<Account>, cache: map<string, ResetEntry>, email: string, username: string,
                        token: string, issued: int, newPassword: string, now: int)
    requires RequestResetSpec(accounts, cache, email, username, token, issued).0 in {Ok, ServerError}
    requires token != "" && newPassword != ""
    requires now >= issued + ResetWindow
    ensures var c := RequestResetSpec(accounts, cache, email, username, token, issued).1;
      var (status, after, c2) := ResetPasswordSpec(accounts, c, token, newPassword, now);
      status == Gone && after == accounts && c2 == c - {TokenKey(token)}
  {
  }

  /** A reset that reaches the account only changes that account's password. */
  lemma ResetChangesOnlyPassword(accounts: seq<Account>, cache: map<string, ResetEntry>, token: string, newPassword: string, now: int)
    ensures var (status, after, _) := ResetPasswordSpec(accounts, cache, token, newPassword, now);
      |after| == |accounts| &&
      (status != Ok ==> after == accounts) &&
      forall j :: 0 <= j < |accounts| ==> after[j] == accounts[j] || after[j] == accounts[j].(password := HashOf(newPassword))
  {
  }

  // ---------------------------------------------------------------------
  // Lists of ids
  // ---------------------------------------------------------------------

  /** No id occurs twice. */
  predicate Distinct(xs: seq<int>)
  {
    forall i, j :: 0 <= i < j < |xs| ==> xs[i] != xs[j]
  }

  /** The rows `find({ where: { id: In(ids) } })` returns: each existing listed id once. */
  function Found(ids: seq<int>, existing: set<int>): (r: seq<int>)
    ensures forall x :: x in r <==> x in ids && x in existing
    ensures Distinct(r)
  {
    if |ids| == 0 then []
    else
      var rest := Found(ids[..|ids| - 1], existing);
      var x := ids[|ids| - 1];
      assert forall y :: y in ids <==> y in ids[..|ids| - 1] || y == x;
      if x in existing && x !in rest then rest + [x] else rest
  }

  /** `candidates.filter((c) => !existing.some((e) => e === c))`. */
  function NewItems(existing: seq<int>, candidates: seq<int>): (r: seq<int>)
    ensures forall x :: x in r <==> x in candidates && x !in existing
    ensures Distinct(candidates) ==> Distinct(r)
  {
    if |candidates| == 0 then []
    else
      var rest := NewItems(existing, candidates[..|candidates| - 1]);
      var x := candidates[|candidates| - 1];
      assert forall y :: y in candidates <==> y in candidates[..|candidates| - 1] || y == x;
      if x !in existing then rest + [x] else rest
  }

  /** With nothing existing, every candidate is new, duplicates included. */
  lemma {:induction false} NewItemsFromNothing(candidates: seq<int>)
    ensures NewItems([], candidates) == candidates
    decreases |candidates|
  {
    if |candidates| > 0 {
      NewItemsFromNothing(candidates[..|candidates| - 1]);
      assert candidates[..|candidates| - 1] + [candidates[|candidates| - 1]] == candidates;
    }
  }

  /** `xs.filter((x) => !removed.includes(x))`. */
  function Without(xs: seq<int>, removed: seq<int>): (r: seq<int>)
    ensures forall x :: x in r <==> x in xs && x !in removed
    ensures Distinct(xs) ==> Distinct(r)
  {
    if |xs| == 0 then []
    else
      var rest := Without(xs[..|xs| - 1], removed);
      var x := xs[|xs| - 1];
      assert forall y :: y in xs <==> y in xs[..|xs| - 1] || y == x;
      if x !in removed then rest + [x] else rest
  }

  /** Appending ids that are new keeps a list duplicate-free. */
  lemma DistinctAppend(a: seq<int>, b: seq<int>)
    requires Distinct(a) && Distinct(b)
    requires forall x :: x in b ==> x !in a
    ensures Distinct(a + b)
  {
    forall i, j | 0 <= i < j < |a + b|
      ensures (a + b)[i] != (a + b)[j]
    {
      if j >= |a| && i < |a| {
        assert (a + b)[j] in b;
      }
    }
  }

  // ---------------------------------------------------------------------
  // Groups
  // ---------------------------------------------------------------------

  /** The groups after `addGroups` (ids found among `groupIds`) and then `removeGroups`. */
  function NewGroups(groups: seq<int>, groupIds: set<int>, add: ListField<int>, remove: ListField<int>): seq<int>
  {
    var added := if add.List? then groups + NewItems(groups, Found(add.items, groupIds)) else groups;
    if remove.List? then Without(added, remove.items) else added
  }

  /** `updateUserGroups`. */
  function UpdateGroupsSpec(accounts: seq<Account>, idParam: UserId, groupIds: set<int>,
                            add: ListField<int>, remove: ListField<int>): (Status, seq<Account>)
  {
    if idParam == "" then (BadRequest, accounts)
    else
      var k := AccountIndex(accounts, ById(idParam));
      if k.None? then (NotFound, accounts)
      else
        var user := accounts[k.value];
        (Ok, accounts[k.value := user.(groups := NewGroups(user.groups, groupIds, add, remove))])
  }

  /**
   * After the update a user holds a group exactly when it held it or it
   * was added and exists, and it was not removed; a duplicate-free list
   * stays duplicate-free.
   */
  lemma GroupsEffect(groups: seq<int>, groupIds: set<int>, add: ListField<int>, remove: ListField<int>)
    ensures forall g :: g in NewGroups(groups, groupIds, add, remove) <==>
      (g in groups || (add.List? && g in add.items && g in groupIds)) && !(remove.List? && g in remove.items)
    ensures Distinct(groups) ==> Distinct(NewGroups(groups, groupIds, add, remove))
  {
    if add.List? && Distinct(groups) {
      DistinctAppend(groups, NewItems(groups, Found(add.items, groupIds)));
    }
  }

  // ---------------------------------------------------------------------
  // Project roles
  // ---------------------------------------------------------------------

  /** The project of some found role of the given kind is `p`. */
  predicate HasRoleOfKind(found: seq<int>, roles: map<int, Role>, managing: bool, p: int)
  {
    exists i :: 0 <= i < |found| && found[i] in roles && roles[found[i]].isManaging == managing && roles[found[i]].project == p
  }

  /** `.filter((r) => r.isManagingTeam == managing).map((r) => r.project)`. */
  function ProjectsOf(found: seq<int>, roles: map<int, Role>, managing: bool): (r: seq<int>)
    ensures forall p :: p in r <==> HasRoleOfKind(found, roles, managing, p)
  {
    if |found| == 0 then []
    else
      var rest := ProjectsOf(found[..|found| - 1], roles, managing);
      var x := found[|found| - 1];
      assert forall p :: HasRoleOfKind(found, roles, managing, p) <==>
        HasRoleOfKind(found[..|found| - 1], roles, managing, p) ||
        (x in roles && roles[x].isManaging == managing && roles[x].project == p);
      if x in roles && roles[x].isManaging == managing then rest + [roles[x].project] else rest
  }

  /** Some found role is of the given kind for a project in `projects`. */
  predicate Clash(found: seq<int>, roles: map<int, Role>, managing: bool, projects: seq<int>)
  {
    exists p :: p in projects && HasRoleOfKind(found, roles, managing, p)
  }

  /** `updateUserProjectRoles`. */
  function UpdateProjectRolesSpec(accounts: seq<Account>, idParam: UserId, roles: map<int, Role>,
                                  add: ListField<int>, remove: ListField<int>): (Status, seq<Account>)
  {
    if idParam == "" then (BadRequest, accounts)
    else
      var k := AccountIndex(accounts, ById(idParam));
      if k.None? then (NotFound, accounts)
      else
        var user := accounts[k.value];
        if add.List? && Clash(Found(add.items, roles.Keys), roles, true, user.participating) then (BadRequest, accounts)
        else if add.List? && Clash(Found(add.items, roles.Keys), roles, false, user.managing) then (BadRequest, accounts)
        else
          var added :=
            if add.List? then
              var found := Found(add.items, roles.Keys);
              user.(projectRoles := user.projectRoles + NewItems(user.projectRoles, found),
                    participating := user.participating + NewItems(user.participating, ProjectsOf(found, roles, false)),
                    managing := user.managing + NewItems(user.managing, ProjectsOf(found, roles, true)))
            else user;
          var removed :=
            if remove.List? then added.(projectRoles := Without(added.projectRoles, remove.items)) else added;
          (Ok, accounts[k.value := removed])
  }

  /** A user neither participates in nor manages the same project twice over. */
  predicate MembershipsDisjoint(a: Account)
  {
    forall p :: p in a.participating ==> p !in a.managing
  }

  /** No project gets both a managing and a participating role in one request. */
  ghost predicate UnmixedRequest(found: seq<int>, roles: map<int, Role>)
  {
    forall p :: HasRoleOfKind(found, roles, true, p) ==> !HasRoleOfKind(found, roles, false, p)
  }

  /**
   * The request is refused exactly when the id is missing, the user is
   * unknown, or an added role would make the user manage a project it
   * participates in or the reverse; a refusal changes nothing.
   */
  lemma ProjectRolesRefusals(accounts: seq<Account>, idParam: UserId, roles: map<int, Role>, add: ListField<int>, remove: ListField<int>)
    ensures var (status, after) := UpdateProjectRolesSpec(accounts, idParam, roles, add, remove);
      status in {Ok, BadRequest, NotFound} && (status != Ok ==> after == accounts) &&
      (status == BadRequest <==>
        idParam == "" ||
        (AccountIndex(accounts, ById(idParam)).Some? && add.List? && (
          var user := accounts[AccountIndex(accounts, ById(idParam)).value];
          (exists i :: 0 <= i < |add.items| && add.items[i] in roles && roles[add.items[i]].isManaging &&
             roles[add.items[i]].project in user.participating) ||
          (exists i :: 0 <= i < |add.items| && add.items[i] in roles && !roles[add.items[i]].isManaging &&
             roles[add.items[i]].project in user.managing))))
  {
    var k := AccountIndex(accounts, ById(idParam));
    if idParam != "" && k.Some? && add.List? {
      var user := accounts[k.value];
      var found := Found(add.items, roles.Keys);
      ClashMeaning(add.items, roles, true, user.participating);
      ClashMeaning(add.items, roles, false, user.managing);
    }
  }

  /** A clash on the found roles is a clash on a listed role. */
  lemma ClashMeaning(ids: seq<int>, roles: map<int, Role>, managing: bool, projects: seq<int>)
    ensures Clash(Found(ids, roles.Keys), roles, managing, projects) <==>
      exists i :: 0 <= i < |ids| && ids[i] in roles && roles[ids[i]].isManaging == managing && roles[ids[i]].project in projects
  {
    var found := Found(ids, roles.Keys);
    if Clash(found, roles, managing, projects) {
      var p :| p in projects && HasRoleOfKind(found, roles, managing, p);
      var i :| 0 <= i < |found| && found[i] in roles && roles[found[i]].isManaging == managing && roles[found[i]].project == p;
      assert found[i] in ids;
      var j :| 0 <= j < |ids| && ids[j] == found[i];
    }
    if exists i :: 0 <= i < |ids| && ids[i] in roles && roles[ids[i]].isManaging == managing && roles[ids[i]].project in projects {
      var i :| 0 <= i < |ids| && ids[i] in roles && roles[ids[i]].isManaging == managing && roles[ids[i]].project in projects;
      assert ids[i] in found;
      var j :| 0 <= j < |found| && found[j] == ids[i];
      assert HasRoleOfKind(found, roles, managing, roles[ids[i]].project);
    }
  }

  /**
   * An accepted request keeps a user's memberships disjoint when it does
   * not give both kinds of role for one project; the role list stays
   * duplicate-free, and removing roles leaves the memberships untouched.
   */
  lemma ProjectRolesKeepInvariants(accounts: seq<Account>, idParam: UserId, roles: map<int, Role>, add: ListField<int>, remove: ListField<int>)
    requires AccountIndex(accounts, ById(idParam)).Some?
    requires UpdateProjectRolesSpec(accounts, idParam, roles, add, remove).0 == Ok
    ensures var k := AccountIndex(accounts, ById(idParam)).value;
      var before := accounts[k];
      var after := UpdateProjectRolesSpec(accounts, idParam, roles, add, remove).1[k];
      (MembershipsDisjoint(before) && (add.List? ==> UnmixedRequest(Found(add.items, roles.Keys), roles)) ==>
         MembershipsDisjoint(after)) &&
      (Distinct(before.projectRoles) ==> Distinct(after.projectRoles)) &&
      (!add.List? ==> after.participating == before.participating && after.managing == before.managing)
  {
    var k := AccountIndex(accounts, ById(idParam)).value;
    var user := accounts[k];
    if add.List? {
      var found := Found(add.items, roles.Keys);
      if Distinct(user.projectRoles) {
        DistinctAppend(user.projectRoles, NewItems(user.projectRoles, found));
      }
    }
  }

  /** An accepted request that only adds roles, for a user with no roles or memberships yet. */
  lemma AddToNewcomer(user: Account, roles: map<int, Role>, ids: seq<int>)
    requires user.id != "" && user.projectRoles == [] && user.participating == [] && user.managing == []
    ensures var found := Found(ids, roles.Keys);
      UpdateProjectRolesSpec([user], user.id, roles, List(ids), NoList) ==
        (Ok, [user.(projectRoles := NewItems([], found), participating := NewItems([], ProjectsOf(found, roles, false)),
                    managing := NewItems([], ProjectsOf(found, roles, true)))])
  {
    assert AccountIndex([user], ById(user.id)) == Some(0);
    var found := Found(ids, roles.Keys);
    assert !Clash(found, roles, true, []);
    assert !Clash(found, roles, false, []);
    var roleIds, parts, mans := NewItems([], found), NewItems([], ProjectsOf(found, roles, false)), NewItems([], ProjectsOf(found, roles, true));
    assert [] + roleIds == roleIds && [] + parts == parts && [] + mans == mans;
    var added := user.(projectRoles := roleIds, participating := parts, managing := mans);
    assert [user][0 := added] == [added];
  }

  /** A worked example, for documentation: looking up the roles `[1, 2]` when both exist. */
  lemma PairFound(roles: map<int, Role>)
    requires 1 in roles && 2 in roles
    ensures Found([1, 2], roles.Keys) == [1, 2]
  {
    assert [1][..0] == [];
    assert Found([1], roles.Keys) == [1];
    assert [1, 2][..1] == [1];
  }

  /** A worked example, for documentation: the projects of two existing roles of one kind. */
  lemma PairProjects(roles: map<int, Role>, managing: bool)
    requires 1 in roles && 2 in roles
    ensures ProjectsOf([1, 2], roles, managing) ==
      (if roles[1].isManaging == managing then [roles[1].project] else []) +
      (if roles[2].isManaging == managing then [roles[2].project] else [])
  {
    assert [1][..0] == [];
    assert ProjectsOf([1], roles, managing) == (if roles[1].isManaging == managing then [roles[1].project] else []);
    assert [1, 2][..1] == [1];
  }

  /**
   * A worked example, for documentation: two participating roles of one
   * project, given to a new user, add that project twice.
   */
  lemma SameProjectAddedTwice(user: Account, roles: map<int, Role>)
    requires user.id != "" && user.projectRoles == [] && user.participating == [] && user.managing == []
    requires 1 in roles && 2 in roles && !roles[1].isManaging && !roles[2].isManaging
    requires roles[1].project == roles[2].project
    ensures var (status, after) := UpdateProjectRolesSpec([user], user.id, roles, List([1, 2]), NoList);
      status == Ok && after[0].participating == [roles[1].project, roles[1].project]
  {
    var p := roles[1].project;
    PairFound(roles);
    PairProjects(roles, false);
    NewItemsFromNothing([p, p]);
    AddToNewcomer(user, roles, [1, 2]);
  }

  /**
   * A worked example, for documentation: a managing and a participating
   * role of one project in one request make a new user both.
   */
  lemma MixedRequestJoinsBothTeams(user: Account, roles: map<int, Role>)
    requires user.id != "" && user.projectRoles == [] && user.participating == [] && user.managing == []
    requires 1 in roles && 2 in roles && roles[1].isManaging && !roles[2].isManaging
    requires roles[1].project == roles[2].project
    ensures var (status, after) := UpdateProjectRolesSpec([user], user.id, roles, List([1, 2]), NoList);
      status == Ok && after[0].participating == [roles[1].project] && after[0].managing == [roles[1].project]
  {
    var p := roles[1].project;
    PairFound(roles);
    PairProjects(roles, false);
    PairProjects(roles, true);
    NewItemsFromNothing([p]);
    AddToNewcomer(user, roles, [1, 2]);
  }

  // ---------------------------------------------------------------------
  // The account table
  // ---------------------------------------------------------------------

  /** The user table and the reset-token cache. */
  class UserDirectory {
    var accounts: seq<Account>
    var cache: map<string, ResetEntry>

    constructor (accs: seq<Account>, c: map<string, ResetEntry>)
      ensures accounts == accs && cache == c
    {
      accounts := accs;
      cache := c;
    }

    /** `register`. */
    method Register(req: Registration, newId: UserId) returns (status: Status)
      modifies this
      ensures (status, accounts) == RegisterSpec(old(accounts), req, newId)
      ensures cache == old(cache)
    {
      if req.username == "" || req.email == "" || req.password == "" {
        return BadRequest;
      }
      if AccountIndex(accounts, ByEmail(req.email)).Some? {
        return BadRequest;
      }
      var user := NewAccount(newId, req, HashOf(req.password));
      accounts := accounts + [user];
      return Created;
    }

    /** `createUser`; `uuid` is the generated UUID the temporary password is cut from. */
    method CreateUser(req: Registration, newId: UserId, uuid: string) returns (status: Status)
      requires |uuid| >= 8
      modifies this
      ensures (status, accounts) == CreateUserSpec(old(accounts), req, newId, uuid)
      ensures cache == old(cache)
    {
      if req.username == "" || req.email == "" {
        return BadRequest;
      }
      if AccountIndex(accounts, ByEmail(req.email)).Some? {
        return BadRequest;
      }
      var rawPassword := TemporaryPassword(uuid);
      accounts := accounts + [NewAccount(newId, req, HashOf(rawPassword))];
      return Created;
    }

    /** `requestPasswordReset`; `token` is the random token, `now` the clock. */
    method RequestPasswordReset(email: string, username: string, token: string, now: int) returns (status: Status)
      modifies this
      ensures (status, cache) == RequestResetSpec(accounts, old(cache), email, username, token, now)
      ensures accounts == old(accounts)
    {
      if email == "" && username == "" {
        return BadRequest;
      }
      var k := if email != "" then AccountIndex(accounts, ByEmail(email)) else AccountIndex(accounts, ByUsername(username));
      if k.None? {
        return NotFound;
      }
      cache := cache[TokenKey(token) := ResetEntry(accounts[k.value].id, now + ResetWindow)];
      if email == "" {
        // The link is mailed to an undefined recipient, which the mailer refuses.
        return ServerError;
      }
      return Ok;
    }

    /** `resetPassword`. */
    method ResetPassword(token: string, newPassword: string, now: int) returns (status: Status)
      modifies this
      ensures (status, accounts, cache) == ResetPasswordSpec(old(accounts), old(cache), token, newPassword, now)
    {
      if token == "" || newPassword == "" {
        return BadRequest;
      }
      if TokenKey(token) !in cache {
        return BadRequest;
      }
      var entry := cache[TokenKey(token)];
      if now < entry.expiresAt {
        var k := AccountIndex(accounts, ById(entry.userId));
        if k.None? {
          return NotFound;
        }
        accounts := accounts[k.value := accounts[k.value].(password := HashOf(newPassword))];
        cache := cache - {TokenKey(token)};
        return Ok;
      } else {
        cache := cache - {TokenKey(token)};
        return Gone;
      }
    }

    /** `updateUserGroups`; `groupIds` are the ids of the existing groups. */
    method UpdateGroups(idParam: UserId, groupIds: set<int>, add: ListField<int>, remove: ListField<int>) returns (status: Status)
      modifies this
      ensures (status, accounts) == UpdateGroupsSpec(old(accounts), idParam, groupIds, add, remove)
      ensures cache == old(cache)
    {
      if idParam == "" {
        return BadRequest;
      }
      var k := AccountIndex(accounts, ById(idParam));
      if k.None? {
        return NotFound;
      }
      var user := accounts[k.value];
      if add.List? {
        var groupsToAdd := Found(add.items, groupIds);
        user := user.(groups := user.groups + NewItems(user.groups, groupsToAdd));
      }
      if remove.List? {
        user := user.(groups := Without(user.groups, remove.items));
      }
      accounts := accounts[k.value := user];
      return Ok;
    }

    /** `updateUserProjectRoles`. */
    method UpdateProjectRoles(idParam: UserId, roles: map<int, Role>, add: ListField<int>, remove: ListField<int>)
      returns (status: Status)
      modifies this
      ensures (status, accounts) == UpdateProjectRolesSpec(old(accounts), idParam, roles, add, remove)
      ensures cache == old(cache)
    {
      if idParam == "" {
        return BadRequest;
      }
      var k := AccountIndex(accounts, ById(idParam));
      if k.None? {
        return NotFound;
      }
      var user := accounts[k.value];
      if add.List? {
        var rolesToAdd := Found(add.items, roles.Keys);
        var participating := user.participating;
        var managing := user.managing;
        user := user.(projectRoles := user.projectRoles + NewItems(user.projectRoles, rolesToAdd));
        if Clash(rolesToAdd, roles, true, participating) {
          return BadRequest;
        }
        if Clash(rolesToAdd, roles, false, managing) {
          return BadRequest;
        }
        user := user.(participating := participating + NewItems(participating, ProjectsOf(rolesToAdd, roles, false)));
        user := user.(managing := managing + NewItems(managing, ProjectsOf(rolesToAdd, roles, true)));
      }
      if remove.List? {
        user := user.(projectRoles := Without(user.projectRoles, remove.items));
      }
      accounts := accounts[k.value := user];
      return Ok;
    }
  }

  // ---------------------------------------------------------------------
  // Removing users from a project
  // ---------------------------------------------------------------------

  /** A task with the removed users taken off as assignee and verifier, if it is in the project. */
  function ClearedTask(t: Task, userIds: set<UserId>, projectId: int): Task
  {
    if t.project != projectId then t
    else
      t.(assignee := if t.assignee.Some? && t.assignee.value in userIds then None else t.assignee,
         verifier := if t.verifier.Some? && t.verifier.value in userIds then None else t.verifier)
  }

  /** The project of the task a subtask belongs to, if that task exists. */
  function TaskProject(tasks: seq<Task>, id: int): Option<int>
  {
    var k := TaskIndex(tasks, id);
    if k.None? then None else Some(tasks[k.value].project)
  }

  /** A subtask with its assignee taken off when it is a removed user and the subtask is in the project. */
  function ClearedSubtask(tasks: seq<Task>, s: Subtask, userIds: set<UserId>, projectId: int): Subtask
  {
    if TaskProject(tasks, s.task) == Some(projectId) && s.assignee.Some? && s.assignee.value in userIds
    then s.(assignee := None) else s
  }

  /** A user kept as assignee or verifier: not removed, or the row is outside the project. */
  predicate KeptOrCleared(before: Option<UserId>, after: Option<UserId>, userIds: set<UserId>, inProject: bool)
  {
    (after.Some? ==> after == before) &&
    (before.Some? && before.value in userIds && inProject ==> after.None?) &&
    (before.Some? && (before.value !in userIds || !inProject) ==> after == before)
  }

  /**
   * After the removal no task or subtask of the project names a removed
   * user; every other assignment, and every other field, is kept.
   */
  lemma RemovalMeaning(tasks: seq<Task>, s: Subtask, t: Task, userIds: set<UserId>, projectId: int)
    ensures KeptOrCleared(t.assignee, ClearedTask(t, userIds, projectId).assignee, userIds, t.project == projectId)
    ensures KeptOrCleared(t.verifier, ClearedTask(t, userIds, projectId).verifier, userIds, t.project == projectId)
    ensures ClearedTask(t, userIds, projectId).(assignee := t.assignee, verifier := t.verifier) == t
    ensures KeptOrCleared(s.assignee, ClearedSubtask(tasks, s, userIds, projectId).assignee, userIds,
                          TaskProject(tasks, s.task) == Some(projectId))
    ensures ClearedSubtask(tasks, s, userIds, projectId).(assignee := s.assignee) == s
  {
  }

  /** Removing the same users twice changes nothing the second time. */
  lemma RemovalIdempotent(tasks: seq<Task>, s: Subtask, t: Task, userIds: set<UserId>, projectId: int)
    ensures ClearedTask(ClearedTask(t, userIds, projectId), userIds, projectId) == ClearedTask(t, userIds, projectId)
    ensures ClearedSubtask(tasks, ClearedSubtask(tasks, s, userIds, projectId), userIds, projectId) ==
      ClearedSubtask(tasks, s, userIds, projectId)
  {
  }

  /** `removeUsersFromProjectTasks`: the two `map` loops over the loaded tasks and subtasks. */
  method RemoveUsersFromProjectTasks(table: TaskTable, userIds: set<UserId>, projectId: int)
    modifies table
    ensures |table.tasks| == |old(table.tasks)| && |table.subtasks| == |old(table.subtasks)|
    ensures forall j :: 0 <= j < |table.tasks| ==> table.tasks[j] == ClearedTask(old(table.tasks)[j], userIds, projectId)
    ensures forall j :: 0 <= j < |table.subtasks| ==>
      table.subtasks[j] == ClearedSubtask(old(table.tasks), old(table.subtasks)[j], userIds, projectId)
  {
    var tasks := table.tasks;
    ClearTaskUsers(table, userIds, projectId);
    ClearSubtaskUsers(table, tasks, userIds, projectId);
  }

  /** The loop over the tasks of `removeUsersFromProjectTasks`. */
  method ClearTaskUsers(table: TaskTable, userIds: set<UserId>, projectId: int)
    modifies table
    ensures table.subtasks == old(table.subtasks) && |table.tasks| == |old(table.tasks)|
    ensures forall j :: 0 <= j < |table.tasks| ==> table.tasks[j] == ClearedTask(old(table.tasks)[j], userIds, projectId)
  {
    var i := 0;
    while i < |table.tasks|
      invariant 0 <= i <= |table.tasks| == |old(table.tasks)|
      invariant table.subtasks == old(table.subtasks)
      invariant forall j :: 0 <= j < i ==> table.tasks[j] == ClearedTask(old(table.tasks)[j], userIds, projectId)
      invariant forall j :: i <= j < |table.tasks| ==> table.tasks[j] == old(table.tasks)[j]
    {
      var t := table.tasks[i];
      if t.project == projectId {
        if t.assignee.Some? && t.assignee.value in userIds {
          t := t.(assignee := None);
        }
        if t.verifier.Some? && t.verifier.value in userIds {
          t := t.(verifier := None);
        }
      }
      table.tasks := table.tasks[i := t];
      i := i + 1;
    }
  }

  /** The loop over the subtasks of `removeUsersFromProjectTasks`; `tasks` are the task rows it looks projects up in. */
  method ClearSubtaskUsers(table: TaskTable, tasks: seq<Task>, userIds: set<UserId>, projectId: int)
    modifies table
    ensures table.tasks == old(table.tasks) && |table.subtasks| == |old(table.subtasks)|
    ensures forall j :: 0 <= j < |table.subtasks| ==>
      table.subtasks[j] == ClearedSubtask(tasks, old(table.subtasks)[j], userIds, projectId)
  {
    var k := 0;
    while k < |table.subtasks|
      invariant 0 <= k <= |table.subtasks| == |old(table.subtasks)|
      invariant table.tasks == old(table.tasks)
      invariant forall j :: 0 <= j < k ==> table.subtasks[j] == ClearedSubtask(tasks, old(table.subtasks)[j], userIds, projectId)
      invariant forall j :: k <= j < |table.subtasks| ==> table.subtasks[j] == old(table.subtasks)[j]
    {
      var s := table.subtasks[k];
      if TaskProject(tasks, s.task) == Some(projectId) && s.assignee.Some? && s.assignee.value in userIds {
        table.subtasks := table.subtasks[k := s.(assignee := None)];
      }
      k := k + 1;
    }
  }


  /** A role with the removed users taken off, if it belongs to the project. */
  function ClearedRole(r: Role, userIds: set<UserId>, projectId: int): Role
  {
    if r.project == projectId then r.(users := r.users - userIds) else r
  }

  /** After the removal no role of the project holds a removed user, and every other holder stays. */
  lemma RoleRemovalMeaning(r: Role, userIds: set<UserId>, projectId: int)
    ensures var after := ClearedRole(r, userIds, projectId);
      after.(users := r.users) == r &&
      (r.project == projectId ==> forall u :: u in after.users <==> u in r.users && u !in userIds) &&
      (r.project != projectId ==> after == r)
  {
  }

  /** `removeUsersFromProjectRoles`: the `map` loop over the project's roles. */
  method RemoveUsersFromProjectRoles(store: RoleStore, userIds: set<UserId>, projectId: int)
    modifies store
    ensures store.teams == old(store.teams)
    ensures store.roles.Keys == old(store.roles).Keys
    ensures forall r :: r in store.roles ==> store.roles[r] == ClearedRole(old(store.roles)[r], userIds, projectId)
  {
    var pending := store.roles.Keys;
    while pending != {}
      invariant store.roles.Keys == old(store.roles).Keys
      invariant pending <= store.roles.Keys
      invariant store.teams == old(store.teams)
      invariant forall r :: r in store.roles && r in pending ==> store.roles[r] == old(store.roles)[r]
      invariant forall r :: r in store.roles && r !in pending ==> store.roles[r] == ClearedRole(old(store.roles)[r], userIds, projectId)
      decreases pending
    {
      if forall r :: r !in pending {
        assert false;  // a non-empty set has a member
      }
      var roleId :| roleId in pending;
      var role := store.roles[roleId];
      if role.project == projectId {
        store.roles := store.roles[roleId := role.(users := role.users - userIds)];
      }
      pending := pending - {roleId};
    }
  }
}
