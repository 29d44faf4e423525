# QuickSight registry model

This project models the in-memory QuickSight registry of the moto AWS mock. Each (account, region) backend stores three dictionaries:

- groups and users, keyed by the composite string `account:namespace:id`;
- data sources, keyed by `account::id`.

The backend creates, describes, updates, deletes and lists these entries. Each group keeps its own insertion-ordered map from user name to membership. Folder permissions are checked against three fixed action bundles (viewer, author, owner).

Modules:

- `OrderedMaps`: a Python `dict` is an `OrderedMap`, a sequence of keys in insertion order plus a map.
  - Assigning to an existing key keeps its position.
  - Assigning a new key appends it.
  - `pop` removes the key from the order.
- `Models`: holds `QuickSightBackend`, a class whose three dictionaries are fields. The operations that change the backend are methods, and so is `list_user_groups`, which builds its result in a loop. The lookups, the other listings and the two constructors that store nothing (`create_data_set`, `create_ingestion`) are functions.
  - The backend invariant `Valid` says each group is stored under the key of its own account, namespace and name.
  - It also says that no group or user object is stored under two keys. Because of this, changing one group in place leaves every other group as it was.
- `DataModels`: the entities and their ARNs.
  - `QuicksightGroup` and `QuicksightUser` are classes, because the service changes their fields in place: members and description for a group, email and role for a user.
  - Memberships, data sets, ingestions and folders are values.
- `Permissions`: the permission record, and the bundle check written as the source's loop with `break`. The loop is proved against a reference definition: the actions equal one of the bundles as a multiset.
- `StringOrder`: Python's `sorted` on strings, under code-point lexicographic order. The model sorts by insertion. This gives the same list as Python's `sorted`, because a list has only one sorted permutation (`StringOrder.SortedUnique`). The proof shows that two lists sort to the same list exactly when they hold the same strings with the same multiplicities.

A set comparison would accept a repeated action. The code compares sorted lists, so a repeated action makes a list invalid. The model follows the code (`Permissions.DuplicateActionRejected`).

The partition of a region, the random principal id of a new user and the clock are parameters of the model.

## Model

| member | source | states |
|---|---|---|
| Models.CreateId | moto/quicksight/models.py:18-19 | Definition of the composite key `account:namespace:id`; its properties are `Models.KeyHasNamespacePrefix`, `Models.CreateIdInjective`, `Models.NamespacePrefixExact` and `Models.ColonCollision`. |
| Models.Render | moto/quicksight/models.py:220 | Definition of how an f-string renders an optional string, an absent one as `None`; used by `Models.QuickSightBackend.CreateDataSource`. |
| Models.NamespacePrefix | moto/quicksight/models.py:104 | Definition of `id_for_ns`, the prefix `account:namespace:`; its properties are `Models.KeyHasNamespacePrefix` and `Models.NamespacePrefixExact`. |
| Models.CreateIdInjective | moto/quicksight/models.py:18-19 | With colon-free accounts and namespaces, equal composite keys come from equal (account, namespace, id) triples, so storing and looking up with the same triple meet. |
| Models.KeyHasNamespacePrefix | moto/quicksight/models.py:18-19 | Every key starts with the `account:namespace:` prefix of its own account and namespace. |
| Models.NamespacePrefixExact | moto/quicksight/models.py:103-107 | With colon-free parts, a key lies under the prefix `a:n:` if and only if it was built from account `a` and namespace `n`. |
| Models.ColonCollision | moto/quicksight/models.py:18-19 | Counterexample: `("a:b", "c", "d")` and `("a", "b:c", "d")` produce the same key. |
| Models.ColonNamespaceOvermatch | moto/quicksight/models.py:104-106 | Counterexample: a group of namespace `default:x` lies under the prefix of namespace `default`. |
| Models.ValuesWithPrefix | moto/quicksight/models.py:105-107 | Every selected value sits under a key with the prefix, and every value under such a key is selected. |
| Models.ValuesWithPrefixPutNew | moto/quicksight/models.py:46-47 | Storing a new key appends its value to the prefix selection exactly when the key has the prefix; the earlier values keep their order. |
| Models.ValuesWithPrefixIgnoresOthers | moto/quicksight/models.py:105-107 | Entries under keys outside the scanned list do not affect the selection. |
| Models.ValuesWithPrefixPutExisting | moto/quicksight/models.py:46-47 | Overwriting an existing key keeps its place in every prefix selection. The new value, if the key matches, stands where the old one stood, and the values before and after it are unchanged. |
| Models.ValuesWithPrefixRemove | moto/quicksight/models.py:63-67 | Popping a key drops exactly its value from every prefix selection. The values before and after it keep their order. |
| Models.KeysIn | moto/quicksight/models.py:142-144 | The kept keys are exactly the scanned keys that are in the given set. |
| Models.Scan | moto/quicksight/models.py:140-144 | The dictionary built by the `list_user_groups` loop is well formed. It maps each of its keys to that key's group, and holds no key that has not been visited yet. |
| Models.ScanKeys | moto/quicksight/models.py:140-144 | That dictionary's keys are the visited keys whose group has the member, in visiting order. |
| Models.WithMember | moto/quicksight/models.py:143 | The kept groups are exactly the groups of the input that have the member. |
| Models.Matching | moto/quicksight/models.py:117-121 | The kept groups are exactly the groups of the input whose `to_json` the filter accepts. |
| Models.QuickSightBackend.constructor | moto/quicksight/models.py:25-29 | A new backend has three empty dictionaries, so every listing is empty. |
| Models.QuickSightBackend.CreateDataSet | moto/quicksight/models.py:31-34 | The data set carries the backend's account and region in its ARN `…:data-set/{id}`, and keeps its id and name. |
| Models.QuickSightBackend.CreateIngestion | moto/quicksight/models.py:56-61 | The ingestion ARN is the data set's ARN followed by `/ingestions/{id}`. |
| Models.QuickSightBackend.DescribeGroup | moto/quicksight/models.py:77-83 | The call succeeds if and only if the key is present, and then returns the stored group. Otherwise it fails with NotFound `Group {name} not found`. |
| Models.QuickSightBackend.DescribeGroupMembership | moto/quicksight/models.py:85-92 | A missing group gives the group's NotFound error. Otherwise the call succeeds if and only if the group has the member, returning the membership stored for that user in that group. A missing member gives NotFound `User {user} not found`. |
| Models.QuickSightBackend.DescribeUser | moto/quicksight/models.py:94-100 | The call succeeds if and only if the key is present, and then returns the stored user. Otherwise it fails with NotFound `User {name} not found`. |
| Models.QuickSightBackend.DescribeDataSource | moto/quicksight/models.py:224-232 | The call succeeds if and only if `account::id` is present, and then returns the stored record. Otherwise it fails with NotFound `DataSource '{id}' not found`. |
| Models.QuickSightBackend.ListGroups | moto/quicksight/models.py:102-107 | Each listed group is stored under a key with the prefix `a:n:`, and every such group is listed. |
| Models.QuickSightBackend.ListUsers | moto/quicksight/models.py:130-133 | The same as `ListGroups`, for users. |
| Models.QuickSightBackend.SearchGroups | moto/quicksight/models.py:109-121 | The result holds exactly the listed groups of the namespace that the filter accepts. |
| Models.QuickSightBackend.ListGroupMemberships | moto/quicksight/models.py:123-128 | A missing group gives NotFound. Otherwise the result has one membership per member, in the order the members were added. |
| Models.QuickSightBackend.MemberThenPrefix | moto/quicksight/models.py:139-145 | Filtering by membership and then by prefix, as the source does, gives the same list as filtering the prefix listing by membership. |
| Models.QuickSightBackend.ListUserGroups | moto/quicksight/models.py:135-145 | The result is exactly the namespace's listed groups that contain the member, in creation order. |
| Models.QuickSightBackend.CreateGroup | moto/quicksight/models.py:36-48 | A fresh group with no members replaces whatever was under the key; no other key changes. `describe_group` then returns it. When the key is new, every namespace listing gains the group at its end exactly when the key has that namespace's prefix. |
| Models.QuickSightBackend.CreateGroupMembership | moto/quicksight/models.py:50-54 | A missing group gives NotFound. Otherwise only that group's member map changes, by adding the user (registered or not), and `describe_group_membership` then returns the new membership. |
| Models.QuickSightBackend.DeleteGroup | moto/quicksight/models.py:63-67 | Only that key is removed, and nothing happens when it is absent. `describe_group` then fails. |
| Models.QuickSightBackend.RemoveMemberEverywhere | moto/quicksight/models.py:70-72 | Every group, in every account and namespace, loses the member and nothing else. Descriptions and group invariants are kept. |
| Models.QuickSightBackend.DeleteUser | moto/quicksight/models.py:69-75 | No group keeps the member. The user's key is removed, and a missing user is not an error. The group keys and every other user are unchanged. |
| Models.QuickSightBackend.RegisterUser | moto/quicksight/models.py:147-170 | A fresh, inactive user with the given fields replaces whatever was under the key, and `describe_user` then returns it. When the key is new, every namespace listing gains the user at its end exactly when the key has that namespace's prefix. |
| Models.QuickSightBackend.UpdateUser | moto/quicksight/models.py:172-183 | A missing user gives NotFound. Otherwise only that user's email and role change. |
| Models.QuickSightBackend.UpdateGroup | moto/quicksight/models.py:185-190 | A missing group gives NotFound. Otherwise only that group's description changes, and no member map changes. |
| Models.QuickSightBackend.CreateDataSource | moto/quicksight/models.py:192-222 | The record is stored under `account::id`, an absent part rendered as `None`, replacing any earlier record. `describe_data_source` then returns it. |
| DataModels.Arn | moto/quicksight/data_models.py:14-24 | Definition of the shared ARN shape, used by every ARN f-string and by the `ingestion/tbd` placeholder in `to_json`: `arn:{partition}:quicksight:{region}:{account}:{resource}`. |
| DataModels.DataSetArn | moto/quicksight/data_models.py:14 | Definition of the data set ARN, resource `data-set/{id}`; stated by `DataModels.NewDataSet`. |
| DataModels.IngestionArn | moto/quicksight/data_models.py:32 | Definition of the ingestion ARN, resource `data-set/{ds}/ingestions/{id}`; stated by `DataModels.NewIngestion` and `DataModels.IngestionArnExtendsDataSetArn`. |
| DataModels.MembershipArn | moto/quicksight/data_models.py:47 | Definition of the membership ARN, resource `group/default/{group}/{user}`; stated by `DataModels.NewMembership` and `DataModels.MembershipArnExtendsGroupArn`. |
| DataModels.GroupArn | moto/quicksight/data_models.py:62 | Definition of the group ARN, resource `group/default/{name}`; stated by `DataModels.QuicksightGroup.constructor` and `DataModels.GroupArnInjective`. |
| DataModels.UserArn | moto/quicksight/data_models.py:107 | Definition of the user ARN, resource `user/default/{name}`; stated by `DataModels.QuicksightUser.constructor`. |
| DataModels.FolderArn | moto/quicksight/data_models.py:201 | Definition of the folder ARN, resource `folder/{id}`; stated by `DataModels.NewFolder`. |
| DataModels.MembershipArnExtendsGroupArn | moto/quicksight/data_models.py:47 | A membership ARN is the group's ARN followed by `/{user}`. |
| DataModels.IngestionArnExtendsDataSetArn | moto/quicksight/data_models.py:14-32 | An ingestion ARN is the data set's ARN followed by `/ingestions/{id}`. |
| DataModels.GroupArnInjective | moto/quicksight/data_models.py:62 | Within one partition, region and account, different group names give different ARNs. The namespace takes no part in the ARN. |
| DataModels.NewDataSet | moto/quicksight/data_models.py:13-18 | The ARN is `arn:{partition}:quicksight:{region}:{account}:data-set/{id}`. |
| DataModels.DataSet.ToJson | moto/quicksight/data_models.py:20-25 | The JSON holds the ARN, the id, and an ingestion ARN ending `ingestion/tbd`. |
| DataModels.NewIngestion | moto/quicksight/data_models.py:29-33 | The ARN is `…:data-set/{ds}/ingestions/{id}`. |
| DataModels.Ingestion.ToJson | moto/quicksight/data_models.py:35-40 | The status is always `INITIALIZED`. |
| DataModels.NewMembership | moto/quicksight/data_models.py:44-47 | The membership names its group and user, and its ARN is `…:group/default/{group}/{user}`. |
| DataModels.Membership.ToJson | moto/quicksight/data_models.py:49-50 | The JSON holds the ARN and the member name. |
| DataModels.QuicksightGroup.constructor | moto/quicksight/data_models.py:54-69 | The ARN is `…:group/default/{name}` whatever the namespace, and the member map starts empty. |
| DataModels.QuicksightGroup.AddMember | moto/quicksight/data_models.py:71-76 | The member's membership is stored under its name, overwriting any earlier one. `get_member` then returns it, and the description is unchanged. |
| DataModels.QuicksightGroup.DeleteMember | moto/quicksight/data_models.py:78-79 | Only that name is removed, and nothing happens when it is absent. `get_member` then returns nothing. |
| DataModels.QuicksightGroup.GetMember | moto/quicksight/data_models.py:81-82 | A membership is returned if and only if the name is a member, and it is the membership stored under that name, naming that user and this group. |
| DataModels.QuicksightGroup.ListMembers | moto/quicksight/data_models.py:84-85 | The result has one membership per member, in the order they were first added. |
| DataModels.QuicksightGroup.ToJson | moto/quicksight/data_models.py:87-94 | `PrincipalId` is the account id, next to the ARN, name, description and namespace. |
| DataModels.DeleteMemberFromAll | moto/quicksight/models.py:71-72 | Over distinct groups, each group loses the member and nothing else, and stays valid. |
| DataModels.QuicksightUser.constructor | moto/quicksight/data_models.py:98-113 | The ARN is `…:user/default/{username}`, and a new user is not active. |
| DataModels.QuicksightUser.ToJson | moto/quicksight/data_models.py:115-124 | The JSON reports the user's fields, with `Role` for the user role and `Active` as a boolean. |
| DataModels.Folder.GetFolderPath | moto/quicksight/data_models.py:215-217 | The folder path is always empty. |
| DataModels.Folder.ToJson | moto/quicksight/data_models.py:219-229 | `FolderPath` is the empty list, and both timestamps are reported. |
| DataModels.Folder.PermissionsToJson | moto/quicksight/data_models.py:231-234 | No permissions give `[]`. Otherwise there is one `{Principal, Actions}` object per permission, in order. |
| DataModels.NewFolder | moto/quicksight/data_models.py:200-213 | The ARN is `…:folder/{id}`, and `last_updated_time` equals `created_time` at construction. |
| Permissions.PermissionDict.NonEmpty | moto/quicksight/data_models.py:154 | Definition of the permission dictionary's truthiness: it holds at least one key; used by `Permissions.NewPermission`. |
| Permissions.NewPermission | moto/quicksight/data_models.py:147-159 | A non-empty permission dictionary takes precedence over the separate arguments. A missing principal becomes `""`, and missing actions become `[]`. |
| Permissions.Permission.ToJson | moto/quicksight/data_models.py:183-184 | The JSON holds the principal and the actions, in the order given. |
| Permissions.Permission.ValidatePermissionSet | moto/quicksight/data_models.py:161-181 | For `FOLDER`, the call succeeds exactly when the actions are a bundle up to order, counting repeats. Otherwise it fails with InvalidParameterValue carrying the message that lists the actions and the three bundles. Any other resource gives `MOTO: Unknown Permission Set for {resource}`. |
| Permissions.ListRepr | moto/quicksight/data_models.py:174-177 | Definition of how `str()` renders a list of strings, `['a', 'b']`; used by `Permissions.UnsupportedSetMessage`. |
| Permissions.UnsupportedSetMessage | moto/quicksight/data_models.py:174-177 | Definition of the message for a rejected folder permission set; `Permissions.Permission.ValidatePermissionSet` returns it. |
| Permissions.UnknownResourceMessage | moto/quicksight/data_models.py:179-181 | Definition of the message for a resource type without permission sets; `Permissions.Permission.ValidatePermissionSet` returns it. |
| Permissions.MatchesSomeBundle | moto/quicksight/data_models.py:162-173 | The loop with `break` returns true if and only if some bundle has the same multiset of actions. |
| Permissions.SortedEqual | moto/quicksight/data_models.py:169-171 | `sorted(a) == sorted(b)` holds exactly when `a` and `b` are equal as multisets. |
| Permissions.BundleSizes | moto/quicksight/data_models.py:128-145 | The bundles have 1, 5 and 8 actions. |
| Permissions.BundlesNested | moto/quicksight/data_models.py:128-145 | As sets, viewer is strictly inside author, and author strictly inside owner. |
| Permissions.EmptyActionsRejected | moto/quicksight/data_models.py:161-177 | An empty action list is never a bundle. |
| Permissions.DuplicateActionRejected | moto/quicksight/data_models.py:169-171 | The viewer bundle with its action repeated is rejected, because sorted lists keep repeats. |
| Permissions.BundleOrderInsensitive | moto/quicksight/data_models.py:169-171 | Reordering the actions never changes the verdict. |
| Permissions.AtMostOneBundle | moto/quicksight/data_models.py:128-145 | No action list matches two bundles. |
| StringOrder.Le | moto/quicksight/data_models.py:169-170 | Definition of Python's `<=` on strings, by code point; its properties are `StringOrder.LeTotal`, `StringOrder.LeAntisymmetric` and `StringOrder.LeTransitive`. |
| StringOrder.LeTotal | moto/quicksight/data_models.py:169-170 | The string order used by `sorted` is total. |
| StringOrder.LeAntisymmetric | moto/quicksight/data_models.py:169-170 | The string order is antisymmetric. |
| StringOrder.LeTransitive | moto/quicksight/data_models.py:169-170 | The string order is transitive. |
| StringOrder.Insert | moto/quicksight/data_models.py:169-170 | Inserting into a sorted list keeps it sorted and adds exactly the new element. |
| StringOrder.Sort | moto/quicksight/data_models.py:169-170 | `sorted` returns a sorted permutation of its input. |
| StringOrder.SortedUnique | moto/quicksight/data_models.py:169-171 | Two sorted lists with the same multiset are equal. |
| StringOrder.SortEqualIffSameMultiset | moto/quicksight/data_models.py:169-171 | Two lists sort to the same list if and only if they are equal as multisets. |
| Exceptions.Error.Code | moto/quicksight/exceptions.py:6-13 | Each error kind has its own wire code, `ResourceNotFoundException` or `InvalidParameterValueException`, in both directions. |
| OrderedMaps.Empty | moto/quicksight/models.py:27-29 | `dict()` is valid and has no keys or entries. |
| OrderedMaps.OrderedMap.Get | moto/quicksight/data_models.py:81-82 | `d.get(k, None)` returns the stored value exactly when the key is present. |
| OrderedMaps.OrderedMap.Put | moto/quicksight/models.py:47 | `d[k] = v` maps `k` to `v` and leaves other keys alone. An existing key keeps its place, and a new key goes last. |
| OrderedMaps.OrderedMap.Remove | moto/quicksight/models.py:67 | `d.pop(k, None)` removes only `k` from the map and from the order, and does nothing when `k` is absent. |
| OrderedMaps.OrderedMap.Values | moto/quicksight/data_models.py:84-85 | `list(d.values())` lists the values in key order. |
| OrderedMaps.WithoutAt | moto/quicksight/data_models.py:78-79 | Popping the key at position `i` leaves the other keys in their original order. |
| OrderedMaps.Without | moto/quicksight/models.py:67 | Removing a key from the order keeps the other keys and their distinctness. |
| OrderedMaps.PutNewAppends | moto/quicksight/data_models.py:75 | Adding a new key appends its value to `values()`. |
| OrderedMaps.PutExistingReplaces | moto/quicksight/data_models.py:75 | Overwriting a key replaces its value in place in `values()`. |

## Left out

- HTTP handling in moto/quicksight/responses.py is not part of this model: path splitting, `unquote`, and JSON encoding and decoding.
- Pagination (the `@paginate` decorator and its model in moto/quicksight/utils.py) is not part of this model. Every listing returns the full ordered list.
- Models.QuickSightBackend.SearchGroups: the search filter is an arbitrary predicate over a group's `to_json`. The filter factory `QuicksightSearchFilterFactory` (moto/quicksight/utils.py), its validation and its `ValidationException` are not modelled.
- The `QuicksightDataSource` class is not modelled. A data source is the record of its constructor arguments, stored under its key; its ARN, status and `to_json` are left out.
- The backend folder operations (`create_folder`, `describe_folder` and their checks) are not part of this model, because the backend has no folder collection. Only the folder entity is modelled.
- `get_partition`, `random.get_random_hex` and `datetime.now` are left out as parameters: the partition is a backend constant, the principal id is an argument of `RegisterUser`, and the clock reading is an argument of `NewFolder`, given as the already rendered `isoformat()` string.
- `TaggingService` and folder tags are left out. They are another library's state.
- `BackendDict`, the per-account and per-region container of backends, is left out.
- Permissions.NewPermission: a "Principal" or "Actions" entry that is present but holds `None` is not modelled. An entry is either a value or absent.
- Permissions.UnsupportedSetMessage: Python's `repr` escaping of quotes and backslashes inside action names is not modelled. Each action is written between single quotes as it is.
- Permissions.ListRepr: Python's `str()` of a list uses `repr` for each string. That escapes quotes and backslashes, and picks double quotes for a string that contains `'`. The model always writes single quotes and no escapes, so the two agree only on action names without quotes or backslashes.
- A group description, and a user's email and role, are plain strings in the model. The HTTP layer passes `None` when the request leaves them out, for example a group created without a description. An absent description, email or role is not represented.
- Keys are built by plain concatenation, so a colon inside an account or namespace lets different triples collide (`Models.ColonCollision`). It also lets a namespace listing take in groups of a longer namespace (`Models.ColonNamespaceOvermatch`). The injectivity and exact-listing lemmas therefore assume colon-free accounts and namespaces.
- Aliasing: `describe_*` and `list_*` return the stored objects themselves. The model returns the same references, but does not model a caller changing them outside the backend's own operations.
- Models.QuickSightBackend.CreateDataSource: an f-string renders an absent account or id as `None`. The model reproduces that rendering, but not Python's string conversion of non-string values.
