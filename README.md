# Route read-permission check of the nexpo admin front-end

This project models the permission helper of the nexpo React front-end
(`priv/react_app/src/Util/PermissionsHelper.js`). The helper decides whether
the current user may view a route's resource listing. It has three parts:

- `routePermissions`: a constant table from seven resource keys (`categories`,
  `companies`, `roles`, `users`, `events`, `sessions`, `hosts`) to the permissions
  that grant read access. Each entry is `read_all` plus `read_<key>`.
- `getBasePath`: the resource key of a route. The route is split on `/`, the
  empty segments are dropped and the first remaining segment is taken. If no
  segment remains, the key is `undefined`.
- `hasPermission(currentUser, route)`: an absent user is denied every route.
  A route whose key is in the table is granted when some role of the user
  carries some permission of that entry. Every other route is granted to any
  present user (fail-open).

The model is pure, like the source. There are two modules:

- `RoutePaths` (`route_paths.dfy`) models `String.prototype.split('/')` (`Split`,
  with `Join` as its inverse), `filter(i => i)` (`NonEmptySegments`) and
  `getBasePath` (`BasePath`). `BasePath` is proved equal to an independent
  reading of the route (`ScanBasePath`): skip the leading slashes, then take
  the characters up to the next slash.
- `PermissionsHelper` (`permissions_helper.dfy`) holds the table
  (`RoutePermissions`), the input records, the two nested `some` calls and
  `HasPermission`. The lemmas state the access rules and their monotonicity.

The input shapes are explicit datatypes. `Option<User>` is the possibly absent
user. `User(roles: Option<seq<Role>>)` has `roles == None` when the object has
no `roles` field, or has it set to `undefined`; the destructuring default at line 23 turns into `[]`.
A truthy value that is not an object (`true`, `1`, `"x"`) also passes the
check at line 19 and has no `roles`, so it behaves as `Some(User(None))`. So
does an object whose `roles` is explicitly `undefined`, which takes the same
default. `Role(permissions: seq<string>)` is a role. Because every member is a Dafny
function, repeated calls with the same arguments give the same answer.

Three facts about the source fix the model's shape:

- The table at `PermissionsHelper.js:4-12` has exactly seven keys:
  `categories`, `companies`, `roles`, `users`, `events`, `sessions` and
  `hosts` (`RoutePermissionsShape`).
- A route whose key is not in the table is granted to any present user
  (line 28). The policy is fail-open.
- The route may be any string, including `""`. A route with no non-empty
  segment has no key and is treated as unmapped.

## Model

| member | source | states |
|---|---|---|
| `RoutePaths.Split` | priv/react_app/src/Util/PermissionsHelper.js:14 | `route.split('/')` yields at least one piece, no piece contains `/`, and joining the pieces with `/` gives back the route |
| `RoutePaths.SplitJoin` | priv/react_app/src/Util/PermissionsHelper.js:14 | splitting the `/`-join of slash-free pieces gives back exactly those pieces (the other direction of the round trip) |
| `RoutePaths.NonEmptySegments` | priv/react_app/src/Util/PermissionsHelper.js:14 | `filter(i => i)` keeps only non-empty pieces, all taken from its input, and is empty exactly when every piece is empty |
| `RoutePaths.NonEmptySegmentsAppend` | priv/react_app/src/Util/PermissionsHelper.js:14 | filtering the concatenation of two segment lists is the concatenation of their filterings, so the filter keeps the non-empty segments in their original order |
| `RoutePaths.NonEmptySegmentsCounts` | priv/react_app/src/Util/PermissionsHelper.js:14 | the filter keeps every non-empty segment as often as it occurs and drops every empty one |
| `RoutePaths.NonEmptySegmentsFirst` | priv/react_app/src/Util/PermissionsHelper.js:14 | the first segment kept is the first non-empty segment of the input, and every segment before it is empty |
| `RoutePaths.BasePath` | priv/react_app/src/Util/PermissionsHelper.js:14 | `getBasePath`: a key that exists is non-empty, slash-free and one of the split's pieces; there is none exactly when every piece is empty. `BasePathIsScan` equates it with the direct scan |
| `RoutePaths.BasePathIsScan` | priv/react_app/src/Util/PermissionsHelper.js:14 | the first non-empty piece of the split equals the text after the leading slashes up to the next slash, and there is none when only slashes remain |
| `RoutePaths.NoBasePathIffAllSlashes` | priv/react_app/src/Util/PermissionsHelper.js:14 | the base path is `undefined` exactly when the route consists of slashes only (`""`, `"/"`, `"///"`) |
| `RoutePaths.BasePathShape` | priv/react_app/src/Util/PermissionsHelper.js:14 | a base path is non-empty and slash-free, it starts right after the route's leading slashes, and it ends at the next slash or at the end of the route |
| `RoutePaths.LeadingSlashIgnored` | priv/react_app/src/Util/PermissionsHelper.js:14 | a leading `/` does not change the base path |
| `RoutePaths.FirstSegmentIsBasePath` | priv/react_app/src/Util/PermissionsHelper.js:14 | a route made of a non-empty slash-free segment, then nothing or `/` and anything, has that segment as its base path |
| `RoutePaths.RouteSpellings` | priv/react_app/src/Util/PermissionsHelper.js:14 | `/k`, `k/`, `//k///5` and `/k/3/edit` all have base path `k` for any non-empty slash-free `k`, such as `companies` |
| `PermissionsHelper.RoutePermissionsShape` | priv/react_app/src/Util/PermissionsHelper.js:4-12 | the table has exactly the seven keys, and each entry is `["read_all", "read_<key>"]` |
| `PermissionsHelper.RolesOf` | priv/react_app/src/Util/PermissionsHelper.js:23 | `const { roles = [] } = currentUser`: a missing or `undefined` `roles` reads as `[]`, and a non-empty result is the user's own `roles` list |
| `PermissionsHelper.IsMapped` | priv/react_app/src/Util/PermissionsHelper.js:18-22 | the truthiness test `if (permissionsNeeded)` holds exactly when the route has a key and that key is in the table; an all-slash route is never mapped |
| `PermissionsHelper.PermissionsNeeded` | priv/react_app/src/Util/PermissionsHelper.js:18 | the lookup is defined exactly for a base path that is a table key, returns that entry, and the entry always lists `read_all` |
| `PermissionsHelper.SomePermissionNeeded` | priv/react_app/src/Util/PermissionsHelper.js:25 | `permissions.some(p => needed.includes(p))` is true exactly when the two lists share a permission |
| `PermissionsHelper.SomeRoleGrants` | priv/react_app/src/Util/PermissionsHelper.js:24-26 | `roles.some(...)` is true exactly when some permission held by some role is in the needed list (union over roles) |
| `PermissionsHelper.HasPermission` | priv/react_app/src/Util/PermissionsHelper.js:16-29 | an absent user is denied every route; a present user is granted every unmapped route; for a mapped route a present user is granted exactly when some role holds some permission of the route's entry |
| `PermissionsHelper.SlashOnlyRouteIsUnmapped` | priv/react_app/src/Util/PermissionsHelper.js:14-28 | a route with no non-empty segment is unmapped: granted to any present user, denied to an absent one |
| `PermissionsHelper.ReadAllGrantsEveryRoute` | priv/react_app/src/Util/PermissionsHelper.js:5-28 | a user holding `read_all` in any role is granted every route, mapped or not |
| `PermissionsHelper.MissingRolesDenied` | priv/react_app/src/Util/PermissionsHelper.js:22-26 | a present user with no `roles` field is denied every mapped route |
| `PermissionsHelper.NoMatchingPermissionDenied` | priv/react_app/src/Util/PermissionsHelper.js:22-26 | a present user none of whose permissions is in a mapped route's entry is denied that route |
| `PermissionsHelper.ReadCompaniesOnly` | priv/react_app/src/Util/PermissionsHelper.js:6-26 | a user who holds `read_companies` and no other permission in any role is granted every route keyed `companies` and denied every route keyed `users` |
| `PermissionsHelper.AnyMatchingRoleSuffices` | priv/react_app/src/Util/PermissionsHelper.js:24-26 | one role that matches the route's entry grants access, whatever the other roles hold |
| `PermissionsHelper.MoreHeldMoreGranted` | priv/react_app/src/Util/PermissionsHelper.js:24-25 | a user who holds every permission another user holds is granted every route the other is granted |
| `PermissionsHelper.AddRoleMonotone` | priv/react_app/src/Util/PermissionsHelper.js:24-26 | inserting a role anywhere in the user's roles never turns a grant into a denial |
| `PermissionsHelper.AddPermissionMonotone` | priv/react_app/src/Util/PermissionsHelper.js:25 | inserting a permission anywhere in one of the user's roles never turns a grant into a denial |

## Left out

- JavaScript property lookup on a plain object: `routePermissions["constructor"]` and other inherited keys find prototype members. The table is a finite map with exactly the seven keys.
- Inputs that make the JavaScript throw are ruled out by the types. These are a route that is not a string (line 14 throws even for an absent user, because the base path is computed first), `roles: null` (the default at line 23 applies only to `undefined`), and a role without a `permissions` array.
- Any falsy `currentUser` (`null`, `undefined`, `0`, `""`, `false`) is modelled as `None`. Any truthy value is modelled as `Some`. An object with its `roles` read as `undefined` is `User(None)`, whether the field is missing or set to `undefined`. A truthy non-object such as `true`, `1` or `"x"` is also `User(None)`.
- The other front-end files (React screens, forms, Redux actions, `connect` wiring) and the generated API documentation data are rendering and I/O plumbing with no decision logic. They are not part of this model.
