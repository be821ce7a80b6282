# Trebol security loader and product categories in Dafny

This project models two pieces of the Trebol e-commerce backend and proves properties about them.

- **The principal loader** (`UserDetailsServiceImpl`, module `Security` in `Security.dfy`).
  - It is given a login name.
  - It returns a principal (`UserDetails`: authorities, username, password and four account-status flags), or it fails with "username not found".
  - It also fails (`AuthorityTextRequired`) when a permission code is null or has no non-whitespace character: Spring's `SimpleGrantedAuthority` constructor rejects such a code with an `IllegalArgumentException`. `HasText` and `IsJavaWhitespace` state that check as Spring's `StringUtils.hasText` and Java's `Character.isWhitespace` define it.
  - When the guest toggle is on and the name equals the configured guest name exactly, it returns a virtual guest principal. The guest's authorities come from the permission rows of the configured guest role, and no stored user is looked up.
  - Any other name goes to the users repository. A stored user's authorities come from the user-permissions service.
  - Permissions become authorities one by one, in order, and duplicates are kept (`convertPermissionList`). The first code without text stops the conversion with the failure above.
  - The three collaborators are pure read-only functions, kept together in a `Repositories` record. The service class keeps them as `const` fields.
  - `LoadUser` is the specification function. The class method `LoadUserByUsername` contains the source's loops and is proved equal to `LoadUser`.
  - Branch selection is a tagged value, `PrincipalSource = Guest | Stored(user)`, computed by `SelectSource`.
- **The product category entity** (`ProductCategory`, module `Entities` in `Entities.dfy`).
  - It is a class with nullable `id`, `code` and `name` (modelled as `Option`) and a nullable `parent` reference.
  - The ghost footprint `Repr` holds the category and all of its ancestors. `Valid()` says the parent chain is finite and acyclic.
  - `Value()` gives the abstract `CategoryValue` that a chain stands for.
  - The copy constructor `Copy` is recursive and terminates on `source.Repr`. It is proved to give an equal value, to satisfy Lombok's `equals`, and to allocate only fresh objects.
  - Lombok's generated `equals` is the predicate `Equals`. It is proved to coincide with equality of values.
  - `toString` is `ToString`, defined through `Render`. The only input `Render` takes about the parent is that parent's three fields, so the grandparent cannot affect the text.

`Common.dfy` holds the `Option` type.

The loader returns authorities as a list, not a set. The code appends one authority per permission row and never removes duplicates. The model follows the code: `AuthoritiesKeepDuplicates` proves that each code appears as many times as in the input. Likewise, a stored user's permissions are whatever `loadPermissionsForUser` returns. The union across the user's roles happens inside that service, which is not part of this model.

## Model

| member | source | states |
|---|---|---|
| Security.SelectSource | src/main/java/org/trebol/security/UserDetailsServiceImpl.java:76-96 | The guest branch is chosen iff the toggle is on and the name equals the guest name exactly. Otherwise a stored user is chosen iff the users repository finds one, and it is the user the repository found. Otherwise nobody is chosen. |
| Security.AuthoritiesOfPointwise | src/main/java/org/trebol/security/UserDetailsServiceImpl.java:65-72 | When every code has text, the conversion keeps the length, and authority i is exactly the code of permission i. |
| Security.ConvertOutcome | src/main/java/org/trebol/security/UserDetailsServiceImpl.java:65-72 | The conversion succeeds iff every permission code has text (the check at :68). On success the list is as long as the input and authority i carries the code of permission i. |
| Security.AuthoritiesOfAppend | src/main/java/org/trebol/security/UserDetailsServiceImpl.java:66-70 | Converting a concatenation gives the concatenation of the conversions, so appending in loop order preserves order. |
| Security.AuthoritiesKeepDuplicates | src/main/java/org/trebol/security/UserDetailsServiceImpl.java:65-72 | Each code occurs among the authorities exactly as many times as among the permissions. Duplicates are not collapsed. |
| Security.PermissionsOfPointwise | src/main/java/org/trebol/security/UserDetailsServiceImpl.java:79-82 | The guest loop collects one permission per junction row, in row order: permission i is that of row i. |
| Security.PermissionsOfAppend | src/main/java/org/trebol/security/UserDetailsServiceImpl.java:79-82 | Collecting from a concatenation of rows gives the concatenation of the collected permissions. |
| Security.GuestPrincipal | src/main/java/org/trebol/security/UserDetailsServiceImpl.java:76-93 | A guest login never reports "not found". It returns a principal iff every row of the guest role carries a code with text. The principal has the input name and an empty password, all four status flags true, and one authority per row, whose string is that row's permission code. |
| Security.StoredPrincipal | src/main/java/org/trebol/security/UserDetailsServiceImpl.java:94-107 | A non-guest name with a stored user never reports "not found". It returns a principal iff every permission of the user has a code with text. The principal has the input name and the stored password, all four flags true, and one authority per permission of the user, in order. |
| Security.NotFoundExactly | src/main/java/org/trebol/security/UserDetailsServiceImpl.java:94-110 | The lookup reports "not found" (`UsernameNotFound`) iff the name is not the guest login and the repository finds no user. The report carries the input name. A stored user whose codes lack text fails differently (`AuthorityTextRequired`). |
| Security.GuestIgnoresUsersRepository | src/main/java/org/trebol/security/UserDetailsServiceImpl.java:76-94 | For a guest login, replacing the users repository by any other does not change the result. The guest branch returns before line 94. |
| Security.StoredIgnoresRoleRepository | src/main/java/org/trebol/security/UserDetailsServiceImpl.java:94-107 | For a non-guest name, replacing the role/permission repository does not change the result. |
| Security.DisabledGuestIsOrdinaryName | src/main/java/org/trebol/security/UserDetailsServiceImpl.java:76-77 | With the toggle off, the configured guest name and role have no effect. Every name, the guest name included, reports "not found" (`UsernameNotFound`) iff the users repository finds nobody. |
| Security.LoadedIsAlwaysActive | src/main/java/org/trebol/security/UserDetailsServiceImpl.java:84-107 | Every principal returned has enabled, accountNonLocked, accountNonExpired and credentialsNonExpired all true. |
| Security.UserDetailsService.constructor | src/main/java/org/trebol/security/UserDetailsServiceImpl.java:52-63 | The four injected collaborators are stored unchanged in immutable fields. |
| Security.UserDetailsService.ConvertPermissionList | src/main/java/org/trebol/security/UserDetailsServiceImpl.java:65-72 | The appending loop returns exactly `Convert(sourceList)`: the authority list, or the failure at the first code without text. Its properties are the lemmas above. |
| Security.UserDetailsService.LoadUserByUsername | src/main/java/org/trebol/security/UserDetailsServiceImpl.java:74-111 | The method, with its guest-row loop, returns exactly `LoadUser` of the configuration, the collaborators and the name. So it is deterministic for fixed collaborators, and the branch lemmas above apply to it. |
| Entities.ProductCategory.Empty | src/main/java/org/trebol/jpa/entities/ProductCategory.java:36 | The no-argument constructor gives a valid category whose fields are all null. |
| Entities.ProductCategory.constructor | src/main/java/org/trebol/jpa/entities/ProductCategory.java:37 | The all-argument constructor stores its arguments. The result is valid and stands for the given fields over the parent's value. |
| Entities.ProductCategory.Copy | src/main/java/org/trebol/jpa/entities/ProductCategory.java:59-66 | The copy has the source's id, code and name. Its parent is null iff the source's is. Its value equals the source's through the whole chain. It is Lombok-equal to the source. Its objects are all fresh and disjoint from the source's chain. It keeps the `@Size` bounds, measured in UTF-16 units. It terminates because the source chain is finite and acyclic. |
| Entities.ProductCategory.ToString | src/main/java/org/trebol/jpa/entities/ProductCategory.java:69-83 | Reads only the category and its parent. The text starts with `ProductCategory(id=`. It ends with `, parent=null)` when the parent is null and with `))` otherwise. |
| Entities.ProductCategory.Equals | src/main/java/org/trebol/jpa/entities/ProductCategory.java:40 | Lombok's `equals`: true for the same object. When true, the other category is non-null, has the same id, code and name, and has a null parent exactly when this one does. The parent comparison recurses (see `EqualsIffSameValue`). |
| Entities.ProductCategory.SetName | src/main/java/org/trebol/jpa/entities/ProductCategory.java:39 | The Lombok setter changes `name` only and keeps the chain valid. |
| Entities.JavaLength | src/main/java/org/trebol/jpa/entities/ProductCategory.java:49-54 | The `String.length()` that `@Size` measures: between the number of characters and twice that, and equal to it iff no character lies outside the Basic Multilingual Plane. `SizeValid` applies the bounds 1-50 and 1-100 with it. |
| Entities.NatTextRoundTrip | src/main/java/org/trebol/jpa/entities/ProductCategory.java:71 | The decimal text of a number, as string concatenation prints a `Long`, is all digits, has no leading zero unless the number is zero, and parses back to the number. |
| Entities.LongTextRoundTrip | src/main/java/org/trebol/jpa/entities/ProductCategory.java:71 | `LongText` prints "null" for a null id and the signed decimal text otherwise (via `NatText`). Parsing it back gives the same value, so different ids print differently. |
| Entities.RenderLength | src/main/java/org/trebol/jpa/entities/ProductCategory.java:69-83 | The text is 38 layout characters plus the printed id, code and name. It adds 13 more for a null parent, or 43 plus the parent's three printed fields. It never depends on chain depth. |
| Entities.OwnTextStart | src/main/java/org/trebol/jpa/entities/ProductCategory.java:71-73 | The category's own part of the text starts with `id=`. |
| Entities.RenderStart | src/main/java/org/trebol/jpa/entities/ProductCategory.java:70-71 | Any rendered text starts with `ProductCategory(id=`. |
| Entities.RenderEnd | src/main/java/org/trebol/jpa/entities/ProductCategory.java:74-82 | The rendered text ends with `, parent=null)` without a parent, and with `))` with one. |
| Entities.RenderIgnoresGrandparent | src/main/java/org/trebol/jpa/entities/ProductCategory.java:74-80 | Replacing everything above the parent leaves the text unchanged. |
| Entities.EqualsIffSameValue | src/main/java/org/trebol/jpa/entities/ProductCategory.java:40 | Lombok's recursive field-wise `equals` holds iff the two chains stand for the same value. |
| Entities.ChainLength | src/main/java/org/trebol/jpa/entities/ProductCategory.java:63-65 | The number of levels of a category's value equals the size of its footprint, so the chain is finite. |
| Entities.ToStringOfValue | src/main/java/org/trebol/jpa/entities/ProductCategory.java:69-83 | The text of a valid category is the rendering of its value. |
| Entities.SameValueSameShape | src/main/java/org/trebol/jpa/entities/ProductCategory.java:59-83 | Two categories with the same value, such as a copy and its source, have chains of the same length and the same `toString` text. |
| Entities.RenameCopy | src/main/java/org/trebol/jpa/entities/ProductCategory.java:59-66 | Copying a category and then renaming the copy leaves the source's whole chain unchanged. There is no aliasing. |

## Left out

- JWT issuance and validation, the login filter, and the HTTP boundary: `JwtLoginAuthenticationFilter` is not part of this model. Its signing is cryptography in a foreign library.
- The persistence collaborators (`findByNameWithRole`, `deepFindPermissionsByUserRoleId`, `loadPermissionsForUser`) are arbitrary total functions. Their queries, joins and role unions are not modelled.
- Null strings in the loader (a null login name, guest name or stored password) are not modelled. Names and passwords are non-null strings.
- Security.UserDetailsService.ConvertPermissionList: a null `Permission` in the list it is given is not modelled, whether it comes from a guest-role junction row or from the user-permissions service. Every list element is a permission, so the null-dereference exception such an element would raise in `convertPermissionList` has no counterpart. Null and blank permission codes are modelled.
- `IsJavaWhitespace` follows `Character.isWhitespace` as of Java 9. Java 8 also counts U+180E as whitespace.
- Entities.RenderLength: it counts Unicode characters, not the UTF-16 units of Java's `length()`. The two agree when no printed field holds a character outside the Basic Multilingual Plane (see `JavaLength`).
- `Security.UserDetailsService.LoadUserByUsername`: the determinism of two calls is not stated as a separate lemma. It follows from the method's result being a function of its inputs.
- `ProductCategory`'s `hashCode`, getters, builder, and the setters for `id`, `code` and `parent` are not modelled. `setParent` can create a cycle, which the acyclic-chain invariant excludes.
- `Long` ids are unbounded integers. 64-bit overflow does not arise, because ids are only copied, compared and printed.
- JPA lazy loading of `parent`, and the database unique constraints, are not modelled.
- The other entities, validators, configuration holders and tests of the repository are not part of this model.
