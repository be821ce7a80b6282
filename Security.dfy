/**
  The principal loader of the security layer (`UserDetailsServiceImpl`).

  Given a login name it produces a principal (`UserDetails`), a "username
  not found" failure, or the failure Spring's `SimpleGrantedAuthority` raises
  for a permission code without text. A configurable guest name is served without
  any stored user: its authorities come straight from the permissions granted
  to the configured guest role.
 */
module Security {
  import opened Common

  /** A permission entity; its nullable `code` is used verbatim as an authority string. */
  datatype Permission = Permission(id: int, code: Option<string>)

  /** A row of the role/permission junction table. */
  datatype UserRolePermission = UserRolePermission(id: int, roleId: int, permission: Permission)

  /** A stored user as returned by the users repository (only the fields the loader reads). */
  datatype User = User(id: int, name: string, password: string)

  /** Spring's `SimpleGrantedAuthority`: a wrapper around one authority string. */
  datatype GrantedAuthority = GrantedAuthority(authority: string)

  /** The principal built by the loader (`UserDetailsPojo`). */
  datatype UserDetails = UserDetails(
    authorities: seq<GrantedAuthority>,
    username: string,
    password: string,
    enabled: bool,
    accountNonLocked: bool,
    accountNonExpired: bool,
    credentialsNonExpired: bool)

  /**
    Outcome of a lookup: a principal, the `UsernameNotFoundException` carrying
    the name, or the `IllegalArgumentException` ("A granted authority textual
    representation is required") thrown while converting a permission.
   */
  datatype LoadResult =
    | Loaded(details: UserDetails)
    | UsernameNotFound(username: string)
    | AuthorityTextRequired

  /** The part of the security configuration the loader reads. */
  datatype SecurityProperties = SecurityProperties(
    guestUserEnabled: bool,
    guestUserName: string,
    guestUserRoleId: int)

  /**
    The three read-only collaborators, as functions of what they are asked:
    the permission rows of a role, the user with a given name (if any), and
    the permissions of a stored user.
   */
  datatype Repositories = Repositories(
    deepFindPermissionsByUserRoleId: int -> seq<UserRolePermission>,
    findByNameWithRole: string -> Option<User>,
    loadPermissionsForUser: User -> seq<Permission>)

  /** Where a principal comes from: the virtual guest, or a stored user. */
  datatype PrincipalSource = Guest | Stored(user: User)

  // ---------------------------------------------------------------------------
  // Specification functions

  /**
    Java's `Character.isWhitespace`: the separators \t, \n, \u000B, \f, \r and
    \u001C to \u001F, and the Unicode space, line and paragraph separators
    other than the non-breaking spaces \u00A0, \u2007 and \u202F.
   */
  predicate IsJavaWhitespace(c: char)
  {
    || ('\U{0009}' <= c <= '\U{000D}')
    || ('\U{001C}' <= c <= '\U{001F}')
    || c == ' '
    || c == '\U{1680}'
    || ('\U{2000}' <= c <= '\U{2006}')
    || ('\U{2008}' <= c <= '\U{200A}')
    || c == '\U{2028}' || c == '\U{2029}'
    || c == '\U{205F}' || c == '\U{3000}'
  }

  /** Spring's `StringUtils.hasText`: not null, and some character is not whitespace. */
  predicate HasText(code: Option<string>)
  {
    code.Some? && exists i :: 0 <= i < |code.value| && !IsJavaWhitespace(code.value[i])
  }

  /** Every permission of the list has a code that `SimpleGrantedAuthority` accepts. */
  predicate AllHaveText(ps: seq<Permission>)
  {
    forall i :: 0 <= i < |ps| ==> HasText(ps[i].code)
  }

  /** The authority list of a permission list: one authority per permission, same order. */
  function AuthoritiesOf(ps: seq<Permission>): seq<GrantedAuthority>
    requires AllHaveText(ps)
  {
    if ps == [] then [] else [GrantedAuthority(ps[0].code.value)] + AuthoritiesOf(ps[1..])
  }

  /**
    What `convertPermissionList` yields: the authority list, or `None` when
    some code has no text and the authority constructor throws.
   */
  function Convert(ps: seq<Permission>): Option<seq<GrantedAuthority>>
  {
    if AllHaveText(ps) then Some(AuthoritiesOf(ps)) else None
  }

  /** The permissions carried by a list of junction rows, in row order. */
  function PermissionsOf(rows: seq<UserRolePermission>): seq<Permission>
  {
    if rows == [] then [] else [rows[0].permission] + PermissionsOf(rows[1..])
  }

  /** How many permissions of `ps` carry the code `c`. */
  function CodeCount(ps: seq<Permission>, c: string): nat
  {
    if ps == [] then 0 else (if ps[0].code == Some(c) then 1 else 0) + CodeCount(ps[1..], c)
  }

  /** The guest branch applies: the toggle is on and the name matches exactly. */
  predicate IsGuestLogin(props: SecurityProperties, username: string)
  {
    props.guestUserEnabled && username == props.guestUserName
  }

  /** Branch selection of the loader: guest, stored user, or nobody. */
  function SelectSource(props: SecurityProperties, repos: Repositories, username: string): (r: Option<PrincipalSource>)
    ensures r == Some(Guest) <==> props.guestUserEnabled && username == props.guestUserName
    ensures r == None <==> !IsGuestLogin(props, username) && repos.findByNameWithRole(username).None?
    ensures r.Some? && r.value.Stored? <==> !IsGuestLogin(props, username) && repos.findByNameWithRole(username).Some?
    ensures r.Some? && r.value.Stored? ==> repos.findByNameWithRole(username) == Some(r.value.user)
  {
    if IsGuestLogin(props, username) then Some(Guest)
    else match repos.findByNameWithRole(username)
      case None => None
      case Some(user) => Some(Stored(user))
  }

  /** The builder call shared by both branches: every account-status flag is true. */
  function ActivePrincipal(username: string, password: string, authorities: seq<GrantedAuthority>): UserDetails
  {
    UserDetails(authorities, username, password, true, true, true, true)
  }

  /** What `loadUserByUsername` returns, or the failure it throws. */
  function LoadUser(props: SecurityProperties, repos: Repositories, username: string): LoadResult
  {
    match SelectSource(props, repos, username)
    case None => UsernameNotFound(username)
    case Some(Guest) =>
      var rows := repos.deepFindPermissionsByUserRoleId(props.guestUserRoleId);
      (match Convert(PermissionsOf(rows))
       case None => AuthorityTextRequired
       case Some(authorities) => Loaded(ActivePrincipal(username, "", authorities)))
    case Some(Stored(user)) =>
      (match Convert(repos.loadPermissionsForUser(user))
       case None => AuthorityTextRequired
       case Some(authorities) => Loaded(ActivePrincipal(username, user.password, authorities)))
  }

  // ---------------------------------------------------------------------------
  // Properties of the conversion

  /** The conversion keeps length and order: authority i is the code of permission i. */
  lemma {:induction false} AuthoritiesOfPointwise(ps: seq<Permission>)
    requires AllHaveText(ps)
    ensures |AuthoritiesOf(ps)| == |ps|
    ensures forall i :: 0 <= i < |ps| ==> AuthoritiesOf(ps)[i] == GrantedAuthority(ps[i].code.value)
  {
    if ps != [] {
      AuthoritiesOfPointwise(ps[1..]);
      forall i | 1 <= i < |ps|
        ensures AuthoritiesOf(ps)[i] == GrantedAuthority(ps[i].code.value)
      {
        assert AuthoritiesOf(ps)[i] == AuthoritiesOf(ps[1..])[i - 1];
      }
    }
  }

  /**
    The conversion succeeds iff every code has text; then authority i carries
    exactly the code of permission i, and the list is as long as the input.
   */
  lemma ConvertOutcome(ps: seq<Permission>)
    ensures Convert(ps).Some? <==> forall i :: 0 <= i < |ps| ==> HasText(ps[i].code)
    ensures Convert(ps).Some? ==>
      && |Convert(ps).value| == |ps|
      && forall i :: 0 <= i < |ps| ==> Convert(ps).value[i].authority == ps[i].code.value
  {
    if AllHaveText(ps) {
      AuthoritiesOfPointwise(ps);
    }
  }

  /** Converting a concatenation converts each part. */
  lemma {:induction false} AuthoritiesOfAppend(a: seq<Permission>, b: seq<Permission>)
    requires AllHaveText(a) && AllHaveText(b)
    ensures AllHaveText(a + b)
    ensures AuthoritiesOf(a + b) == AuthoritiesOf(a) + AuthoritiesOf(b)
  {
    if a == [] {
      assert a + b == b;
    } else {
      assert (a + b)[1..] == a[1..] + b;
      AuthoritiesOfAppend(a[1..], b);
    }
  }

  /** Duplicates are kept: each code occurs among the authorities as often as among the permissions. */
  lemma {:induction false} AuthoritiesKeepDuplicates(ps: seq<Permission>, c: string)
    requires AllHaveText(ps)
    ensures multiset(AuthoritiesOf(ps))[GrantedAuthority(c)] == CodeCount(ps, c)
  {
    if ps != [] {
      AuthoritiesKeepDuplicates(ps[1..], c);
      assert multiset(AuthoritiesOf(ps)) == multiset{GrantedAuthority(ps[0].code.value)} + multiset(AuthoritiesOf(ps[1..]));
    }
  }

  /** The permissions of the rows keep length and order: permission i is that of row i. */
  lemma {:induction false} PermissionsOfPointwise(rows: seq<UserRolePermission>)
    ensures |PermissionsOf(rows)| == |rows|
    ensures forall i :: 0 <= i < |rows| ==> PermissionsOf(rows)[i] == rows[i].permission
  {
    if rows != [] {
      PermissionsOfPointwise(rows[1..]);
      forall i | 1 <= i < |rows|
        ensures PermissionsOf(rows)[i] == rows[i].permission
      {
        assert PermissionsOf(rows)[i] == PermissionsOf(rows[1..])[i - 1];
      }
    }
  }

  /** Collecting the permissions of a concatenation collects each part. */
  lemma {:induction false} PermissionsOfAppend(a: seq<UserRolePermission>, b: seq<UserRolePermission>)
    ensures PermissionsOf(a + b) == PermissionsOf(a) + PermissionsOf(b)
  {
    if a == [] {
      assert a + b == b;
    } else {
      assert (a + b)[1..] == a[1..] + b;
      PermissionsOfAppend(a[1..], b);
    }
  }

  // ---------------------------------------------------------------------------
  // Properties of the loader

  /**
    The guest login never reports "not found". It yields a principal iff every
    row of the guest role carries a permission code with text; that principal
    has the input name, an empty password, all flags true, and one authority
    per row carrying that row's permission code.
   */
  lemma GuestPrincipal(props: SecurityProperties, repos: Repositories, username: string)
    requires props.guestUserEnabled && username == props.guestUserName
    ensures var r := LoadUser(props, repos, username);
      var rows := repos.deepFindPermissionsByUserRoleId(props.guestUserRoleId);
      && !r.UsernameNotFound?
      && (r.Loaded? <==> forall i :: 0 <= i < |rows| ==> HasText(rows[i].permission.code))
      && (r.Loaded? ==>
          && r.details.username == username
          && r.details.password == ""
          && r.details.enabled && r.details.accountNonLocked
          && r.details.accountNonExpired && r.details.credentialsNonExpired
          && |r.details.authorities| == |rows|
          && forall i :: 0 <= i < |rows| ==> r.details.authorities[i].authority == rows[i].permission.code.value)
  {
    var rows := repos.deepFindPermissionsByUserRoleId(props.guestUserRoleId);
    PermissionsOfPointwise(rows);
    ConvertOutcome(PermissionsOf(rows));
  }

  /**
    A stored user yields a principal iff each of the user's permissions has a
    code with text; that principal has the input name, the stored password,
    all flags true, and one authority per permission, in order.
   */
  lemma StoredPrincipal(props: SecurityProperties, repos: Repositories, username: string, user: User)
    requires !IsGuestLogin(props, username)
    requires repos.findByNameWithRole(username) == Some(user)
    ensures var r := LoadUser(props, repos, username);
      var ps := repos.loadPermissionsForUser(user);
      && !r.UsernameNotFound?
      && (r.Loaded? <==> forall i :: 0 <= i < |ps| ==> HasText(ps[i].code))
      && (r.Loaded? ==>
          && r.details.username == username
          && r.details.password == user.password
          && r.details.enabled && r.details.accountNonLocked
          && r.details.accountNonExpired && r.details.credentialsNonExpired
          && |r.details.authorities| == |ps|
          && forall i :: 0 <= i < |ps| ==> r.details.authorities[i].authority == ps[i].code.value)
  {
    ConvertOutcome(repos.loadPermissionsForUser(user));
  }

  /** The lookup reports "not found" (`UsernameNotFound`) exactly for a non-guest name with no stored user, and the report carries the name. */
  lemma NotFoundExactly(props: SecurityProperties, repos: Repositories, username: string)
    ensures LoadUser(props, repos, username).UsernameNotFound?
        <==> !IsGuestLogin(props, username) && repos.findByNameWithRole(username).None?
    ensures LoadUser(props, repos, username).UsernameNotFound? ==>
        LoadUser(props, repos, username).username == username
  {
  }

  /** The guest branch never consults the users repository. */
  lemma GuestIgnoresUsersRepository(props: SecurityProperties, repos: Repositories, username: string,
                                    otherUsers: string -> Option<User>)
    requires IsGuestLogin(props, username)
    ensures LoadUser(props, repos, username) == LoadUser(props, repos.(findByNameWithRole := otherUsers), username)
  {
  }

  /** A non-guest lookup never consults the role/permission repository. */
  lemma StoredIgnoresRoleRepository(props: SecurityProperties, repos: Repositories, username: string,
                                    otherRows: int -> seq<UserRolePermission>)
    requires !IsGuestLogin(props, username)
    ensures LoadUser(props, repos, username)
         == LoadUser(props, repos.(deepFindPermissionsByUserRoleId := otherRows), username)
  {
  }

  /** With the toggle off the guest name and role play no part: every name, the guest name included, goes to the users repository. */
  lemma DisabledGuestIsOrdinaryName(props: SecurityProperties, repos: Repositories, username: string,
                                    otherName: string, otherRole: int)
    requires !props.guestUserEnabled
    ensures LoadUser(props, repos, username)
         == LoadUser(props.(guestUserName := otherName, guestUserRoleId := otherRole), repos, username)
    ensures LoadUser(props, repos, username).UsernameNotFound? <==> repos.findByNameWithRole(username).None?
  {
  }

  /** Every principal the loader returns has all four account-status flags set. */
  lemma LoadedIsAlwaysActive(props: SecurityProperties, repos: Repositories, username: string)
    ensures var r := LoadUser(props, repos, username);
      r.Loaded? ==>
        && r.details.enabled && r.details.accountNonLocked
        && r.details.accountNonExpired && r.details.credentialsNonExpired
  {
  }

  // ---------------------------------------------------------------------------
  // The service

  /** The loader service with its injected, never reassigned collaborators. */
  class UserDetailsService {
    const usersRepository: string -> Option<User>
    const rolePermissionsRepository: int -> seq<UserRolePermission>
    const userPermissionsService: User -> seq<Permission>
    const securityProperties: SecurityProperties

    constructor(usersRepository: string -> Option<User>,
                rolePermissionsRepository: int -> seq<UserRolePermission>,
                userPermissionsService: User -> seq<Permission>,
                securityProperties: SecurityProperties)
      ensures this.usersRepository == usersRepository
      ensures this.rolePermissionsRepository == rolePermissionsRepository
      ensures this.userPermissionsService == userPermissionsService
      ensures this.securityProperties == securityProperties
    {
      this.usersRepository := usersRepository;
      this.rolePermissionsRepository := rolePermissionsRepository;
      this.userPermissionsService := userPermissionsService;
      this.securityProperties := securityProperties;
    }

    /** The collaborators as one record. */
    function Repos(): Repositories
    {
      Repositories(rolePermissionsRepository, usersRepository, userPermissionsService)
    }

    /**
      One authority per permission, appended in order, duplicates kept; `None`
      when the authority constructor throws on a code without text.
     */
    method ConvertPermissionList(sourceList: seq<Permission>) returns (targetList: Option<seq<GrantedAuthority>>)
      ensures targetList == Convert(sourceList)
    {
      var acc: seq<GrantedAuthority> := [];
      for i := 0 to |sourceList|
        invariant AllHaveText(sourceList[..i])
        invariant acc == AuthoritiesOf(sourceList[..i])
      {
        var source := sourceList[i];
        if !HasText(source.code) {
          assert !AllHaveText(sourceList) by {
            assert !HasText(sourceList[i].code);
          }
          return None;
        }
        var target := GrantedAuthority(source.code.value);
        AuthoritiesOfAppend(sourceList[..i], [source]);
        assert sourceList[..i + 1] == sourceList[..i] + [source];
        acc := acc + [target];
      }
      assert sourceList[..|sourceList|] == sourceList;
      return Some(acc);
    }

    /**
      Loads the principal for `username`. The result depends only on the
      name, the configuration and what the collaborators answer, so two calls
      with the same name against the same data agree.
     */
    method LoadUserByUsername(username: string) returns (r: LoadResult)
      ensures r == LoadUser(securityProperties, Repos(), username)
    {
      if securityProperties.guestUserEnabled && username == securityProperties.guestUserName {
        var rawPermissions := rolePermissionsRepository(securityProperties.guestUserRoleId);
        var permissions: seq<Permission> := [];
        for i := 0 to |rawPermissions|
          invariant permissions == PermissionsOf(rawPermissions[..i])
        {
          PermissionsOfAppend(rawPermissions[..i], [rawPermissions[i]]);
          assert rawPermissions[..i + 1] == rawPermissions[..i] + [rawPermissions[i]];
          permissions := permissions + [rawPermissions[i].permission];
        }
        assert rawPermissions[..|rawPermissions|] == rawPermissions;
        var authorities := ConvertPermissionList(permissions);
        if authorities.None? {
          return AuthorityTextRequired;
        }
        return Loaded(ActivePrincipal(username, "", authorities.value));
      }
      var foundUser := usersRepository(username);
      if foundUser.Some? {
        var user := foundUser.value;
        var permissions := userPermissionsService(user);
        var authorities := ConvertPermissionList(permissions);
        if authorities.None? {
          return AuthorityTextRequired;
        }
        r := Loaded(ActivePrincipal(username, user.password, authorities.value));
      } else {
        r := UsernameNotFound(username);
      }
    }
  }
}
