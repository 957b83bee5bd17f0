# Electronics supply-chain backend in Dafny

This project models the business rules of a supply-chain backend. Members of the
network are factories, retail networks and individual entrepreneurs. Each member may
name another member as its supplier, owes that supplier a debt, has one contact record,
and was created by a user. Users log in by email. Employees (the `employee` group) and
staff manage the network. A user's profile can be edited only by its owner.

The model covers these pieces:

- the supplier-chain level: a hop-counting loop, proved against a recursive level function;
- the type-dependent rules for supplier links, and the field checks the serializer derives from the model;
- how create and update write the member and its nested contact;
- the `debt` guard on updates, and the admin action that clears debt;
- the deletion rules of the schema;
- the password policy;
- the permission predicates, and which guard each method of the profile endpoint uses;
- the user serializer's rules for registration, profile update and password change;
- the user manager's defaults.

Modules follow the source files:

| module | file | models |
|---|---|---|
| `NetworkSchema` | `network_schema.dfy` | the member and contact records, the type choices, `debt` as integer cents |
| `Services` | `services.dfy` | `electronics_network/services.py` |
| `NetworkModels` | `network_models.dfy` | `electronics_network/models.py`: integrity, `level`, `on_delete` |
| `NetworkSerializers` | `network_serializers.dfy` | `electronics_network/serializers.py` |
| `NetworkViews` | `network_views.dfy` | `electronics_network/views.py` |
| `NetworkAdmin` | `network_admin.dfy` | `electronics_network/admin.py` |
| `UserModels` | `user_models.dfy` | `users/models.py` |
| `Validators` | `validators.dfy` | `users/validators.py` |
| `Permissions` | `permissions.dfy` | `users/permissions.py` |
| `UserSerializers` | `user_serializers.dfy` | `users/serializers.py` |
| `UserViews` | `user_views.dfy` | `users/views.py` |
| `Store` | `store.dfy` | the database: `class Database` with the member, contact and user tables, updated in place |
| `Wrappers`, `Validation` | `wrappers.dfy`, `validation.dfy` | `Option`, `Result`, payload keys (`Field`), the error reports |

Tables are maps from primary key to row. A request payload is a record of `Field`
values. `Absent` means the key is missing from the payload, and `Given(v)` means it is
present. A failed validation returns an `Errors` map from field name to one error.
Each pure decision (`CreateDecision`, `UpdateDecision`, `RegisterResult`, and so on) has
a `Database` method that applies it in place. If the decision fails, the method writes
nothing. If it succeeds, the method writes exactly the rows the decision names and keeps
`Valid()`:

- the supplier and creator foreign keys point at existing rows;
- member names are unique;
- user emails are unique;
- every contact belongs to a member;
- every key lies below its sequence.

Acyclicity of the supplier graph is stated separately as the existence of a rank that
strictly decreases along supplier links. `Services.AcyclicIffChainsEnd` proves it
equivalent to "every chain of supplier references reaches a member without a supplier".
Nothing in the system enforces it. The level of one member needs less: only the chain
walked from that member has to end (`Services.ChainEnds`).

The code leaves three things unguarded, and the model keeps them so:

- `debt` is writable on create. Only updates reject it.
- `debt` has no non-negativity constraint.
- No cycle check guards a supplier link (`NetworkViews.SelfSupplyAccepted`).

## Model

| member | source | states |
|---|---|---|
| `NetworkSchema.ParseType` | electronics_network/models.py:10-18 | a type string parses exactly when it is one of `factory`, `retail`, `entrepreneur`, and parses to the choice with that value |
| `NetworkSchema.ParseTypeValue` | electronics_network/models.py:10-18 | every choice's stored value parses back to that choice |
| `NetworkSchema.SetAttr` | electronics_network/serializers.py:71 | `setattr` on a contact changes the named attribute to the value and no other attribute |
| `NetworkSchema.ContactFrom` | electronics_network/serializers.py:61 | the contact created from a complete payload has every attribute equal to the payload's value |
| `Services.GetSupplyChainLevelBySupplier` | electronics_network/services.py:1-7 | whenever the walk from the starting reference ends, the loop returns the recursive level of that reference, and that many hops lead to no supplier |
| `Services.HopStep` | electronics_network/services.py:6 | one more hop from a member moves to that member's own supplier |
| `Services.HopAdd` | electronics_network/services.py:4-6 | a + b hops are a hops followed by b hops |
| `Services.LevelCountsHops` | electronics_network/services.py:3-7 | the level is the number of hops to the end of the chain: after `level` hops there is no supplier, after fewer there is one, so it is the first end |
| `Services.HopNoneStays` | electronics_network/services.py:4 | once the chain has ended, further hops stay at no supplier |
| `Services.FirstEnd` | electronics_network/services.py:4-6 | a chain that ends has a first hop count at which it ends |
| `Services.EndAt` | electronics_network/services.py:4-6 | for a chain that ends, the number of hops after which it first ends |
| `Services.FirstEndUnique` | electronics_network/services.py:4-6 | a chain has only one first end |
| `Services.SupplierChainEnds` | electronics_network/services.py:6 | when the walk from a member ends, the walk from its supplier ends one hop sooner |
| `Services.AcyclicChainEnds` | electronics_network/services.py:4-6 | in an acyclic graph the walk from every reference ends |
| `Services.AcyclicIffChainsEnd` | electronics_network/services.py:4-6 | the supplier graph is acyclic exactly when the loop ends from every member |
| `Services.RankDecreasesAlongHops` | electronics_network/services.py:6 | a rank of an acyclic graph strictly decreases along every non-empty walk |
| `Services.CycleNeverEnds` | electronics_network/services.py:4-6 | from a member on a cycle the walk never reaches no supplier, so the loop does not end, and the graph is not acyclic |
| `Services.CycleHop` | electronics_network/services.py:4-6 | on a cycle, every hop count lands on a member |
| `Services.ChainIntoCycleNeverEnds` | electronics_network/services.py:4-6 | a walk that reaches a member on a cycle never ends, wherever it started |
| `Services.LevelBesideACycle` | electronics_network/services.py:1-7 | in a store where one member supplies itself, the service applied to a member without supplier returns 1 (the level of a member it supplies): the walk only needs its own chain to end |
| `NetworkModels.MemberLevel` | electronics_network/models.py:41-44 | when the member's supplier chain ends, its `level` is the service applied to its own supplier: 0 exactly when it has none, otherwise one more than its supplier's level (whose chain ends too) |
| `NetworkModels.RemoveMembers` | electronics_network/models.py:22-29 | deleting rows removes exactly them; every survivor that referenced a deleted row has its supplier set to null; nothing else in a survivor changes |
| `NetworkModels.RemovePreservesIntegrity` | electronics_network/models.py:58-63 | a deletion, with the cascade to the deleted rows' contacts, keeps foreign keys, unique names and the one-to-one contact link |
| `NetworkModels.RemovePreservesAcyclic` | electronics_network/models.py:22-29 | nulling supplier references during a deletion never creates a cycle |
| `NetworkModels.DeleteSupplierOrphansDependents` | electronics_network/models.py:22-29 | deleting a supplier keeps each dependent, with a null supplier and level 0, in any store; an acyclic store stays acyclic |
| `NetworkModels.DeleteUserCascades` | electronics_network/models.py:34-39 | deleting a user deletes exactly the members it created (the rows `OwnedBy` names), and every survivor's creator is a remaining user |
| `NetworkAdmin.ClearedDebt` | electronics_network/admin.py:10 | after `clear_debt` the selected rows have debt 0, unselected rows are unchanged, and no column but `debt` changes |
| `NetworkAdmin.ClearedCountOfSelection` | electronics_network/admin.py:10-11 | the reported count is the number of selected rows |
| `NetworkAdmin.ClearDebtIdempotent` | electronics_network/admin.py:10 | clearing the same selection twice is clearing it once |
| `NetworkAdmin.ClearDebtPreservesIntegrity` | electronics_network/admin.py:10 | clearing debt keeps the store's integrity and its acyclicity |
| `NetworkAdmin.SaveChangeForm` | electronics_network/admin.py:23 | saving the admin edit form keeps `debt` and `created_at` and writes the editable columns |
| `NetworkSerializers.CheckFields` | electronics_network/serializers.py:22-31 | the field stage fails exactly when some field has an error and reports every such field; when it passes, a full write is complete, the supplier exists, the name is free, and the values are the payload's own |
| `NetworkSerializers.FullPayloadHasContact` | electronics_network/serializers.py:26 | a full payload that passes the field stage carries all five contact keys |
| `NetworkSerializers.Validate` | electronics_network/serializers.py:33-55 | `validate` passes exactly when the link is allowed for the effective type and the supplier's type, and then returns its input unchanged |
| `NetworkSerializers.ValidateRuleOrder` | electronics_network/serializers.py:38-54 | each of the four rules fires exactly in its case: a factory with a supplier, a retail network without one, a retail network supplied by an entrepreneur (only once a supplier is present), an entrepreneur without one |
| `NetworkSerializers.PartialUpdateWithoutSupplierRejected` | electronics_network/serializers.py:35-36 | a partial update of a retail network or an entrepreneur that omits `type` and `supplier` is rejected, whatever supplier the row has |
| `NetworkSerializers.DataKeys` | electronics_network/views.py:52 | the keys of `validated_data` are exactly the payload fields that are given |
| `NetworkSerializers.SetMemberAttrs` | electronics_network/serializers.py:76-78 | the setattr loop over the member's validated keys produces the patched row |
| `NetworkSerializers.PatchMember` | electronics_network/serializers.py:76-78 | each given key overwrites its column, every other column keeps its value, and `created_at` and the creator never change |
| `NetworkSerializers.MergeContact` | electronics_network/serializers.py:66-72 | each attribute of the merged contact is the payload's value when the key is given, the stored one otherwise |
| `NetworkSerializers.SetContactAttrs` | electronics_network/serializers.py:70-72 | the setattr loop over the nested contact payload produces the merged contact |
| `NetworkSerializers.MergeContactLaws` | electronics_network/serializers.py:66-72 | an empty payload leaves the contact unchanged; merging twice is merging once; a complete payload replaces the contact |
| `NetworkSerializers.NewMember` | electronics_network/serializers.py:59-60 | the inserted row has the payload's name and type; a missing supplier is null and a missing debt 0; the creator and the creation time come from the request |
| `NetworkViews.CreateDecision` | electronics_network/views.py:29 | a create is forbidden unless the requester is an active employee or staff, then passes exactly when the field stage and `validate` pass, and yields a complete payload; field errors are reported as they are, and a failed `validate` under `supplier` with the rule's message |
| `NetworkViews.UpdateDecision` | electronics_network/views.py:50-54 | an update is forbidden, then not found, then passes exactly when the field stage and `validate` pass and the payload carries no `debt`; field errors are reported as they are, and a failed `validate` under `supplier`, before the `debt` guard |
| `NetworkViews.DestroyDecision` | electronics_network/views.py:29 | a delete is forbidden unless the requester is an active employee or staff, then not found for a missing row, and otherwise goes ahead |
| `NetworkViews.UpdateRejectsDebt` | electronics_network/views.py:52-53 | an otherwise valid update carrying `debt` is refused with an error under `debt` |
| `NetworkViews.UpdateKeepsBookkeeping` | electronics_network/views.py:50-54 | an accepted update keeps `debt`, `created_at` and the creator |
| `NetworkViews.CreatedRow` | electronics_network/views.py:46-48 | the created row's creator is the requester and its `created_at` is the creation time; name, type and supplier come from the payload; `debt` is the payload's value when given (create has no guard), 0 otherwise |
| `NetworkViews.DuplicateNameRejected` | electronics_network/models.py:20 | creating a member whose name another member has is refused under `name` |
| `NetworkViews.UpdateDuplicateNameRejected` | electronics_network/tests.py:148-156 | a PUT or PATCH renaming a member to another member's name is refused under `name` |
| `NetworkViews.CreatePreservesIntegrity` | electronics_network/serializers.py:57-62 | creating a member with its contact under a fresh key keeps integrity, and keeps an acyclic graph acyclic |
| `NetworkViews.UpdatePreservesIntegrity` | electronics_network/serializers.py:64-79 | an accepted update, with or without the contact merge, keeps integrity |
| `NetworkViews.SelfSupplyAccepted` | electronics_network/serializers.py:33-55 | an entrepreneur patched to be its own supplier is accepted, and the graph is then not acyclic |
| `UserModels.CheckSetPassword` | users/models.py:15 | a password set from a raw value checks for exactly that value, and a password set to none checks for nothing |
| `UserModels.SuperuserDefaults` | users/models.py:21-22 | both flags end up set: to the caller's value when given, to true otherwise; nothing else changes |
| `UserModels.SuperuserDefaultsIdempotent` | users/models.py:21-22 | applying the defaults twice is applying them once |
| `UserModels.InsertKeepsUsersIntegrity` | users/models.py:30 | adding a user with a fresh key and an unused email keeps emails unique |
| `UserModels.BuildUser` | users/models.py:14-15 | the built user has the given key and email and no groups; its password checks exactly against the given one, and against nothing without one; flags the caller left out are active, not staff, not superuser |
| `UserModels.CreateUserResult` | users/models.py:9-17 | `create_user` fails exactly on an empty email, then exactly on a normalised email already taken, and otherwise builds the user from the normalised email |
| `UserModels.CreateUserSound` | users/models.py:9-17 | a created user has the normalised email and no groups; its password checks exactly against the given one; unspecified flags take the model defaults; emails stay unique |
| `UserModels.CreateSuperuserFlags` | users/models.py:19-23 | `create_superuser` makes staff and superuser unless the caller said otherwise |
| `Validators.ValidatePassword` | users/validators.py:6-24 | the policy as a function from the password to its first violation; `Validators.PasswordAccepted` and `Validators.ViolationOrder` state what it accepts and which message it gives |
| `Validators.AllIsForall` | users/validators.py:17 | the character-by-character test holds exactly when every character satisfies the class |
| `Validators.SearchIsExists` | users/validators.py:19-24 | `re.search` with a one-character class finds a match exactly when some character satisfies it |
| `Validators.PasswordAccepted` | users/validators.py:15-24 | a password passes exactly when it has at least 8 characters, all alphanumeric, one of them a non-digit, one a digit, and none in the Cyrillic range |
| `Validators.ViolationOrder` | users/validators.py:15-24 | each of the five messages is reported exactly when its check fails and every earlier one passed |
| `Validators.ShortPasswordRejected` | users/validators.py:15-16 | `q1` is rejected for its length |
| `Validators.HyphenatedPasswordRejected` | users/validators.py:17-18 | a password with hyphens is rejected as not alphanumeric |
| `Validators.DigitsOnlyPasswordRejected` | users/validators.py:19-20 | `88888888` is rejected for having no letter |
| `Validators.LettersOnlyPasswordRejected` | users/validators.py:21-22 | `qqqqqqqq` is rejected for having no digit |
| `Validators.CyrillicPasswordRejected` | users/validators.py:23-24 | a password with Cyrillic letters is rejected by the last check |
| `Validators.AcceptedByComposition` | users/validators.py:15-24 | a password of at least 8 ASCII letters, ASCII digits and Ё/ё, with a non-digit and a digit, passes |
| `Validators.QwertyPasswordAccepted` | users/validators.py:15-24 | `qwerty123` passes |
| `Validators.PoiuyPasswordAccepted` | users/validators.py:15-24 | `poiuy123` passes |
| `Validators.YoPasswordAccepted` | users/validators.py:23 | ё lies outside the `[а-я]` range, so a password of ё and a digit passes |
| `Permissions.IsProfileOwner` | users/permissions.py:18-21 | the owner test compares primary keys; `UserViews.ProfileAccessCases` states that editing takes ownership alone |
| `Permissions.IsActiveEmployeeOrAdmin` | users/permissions.py:24-28 | the member endpoint's gate; `Permissions.ActiveEmployeeOrAdminCases` states whom it lets in |
| `Permissions.CanViewUserProfile` | users/permissions.py:31-42 | the profile view guard; `Permissions.ViewProfileCases` states whom it lets in |
| `Permissions.ActiveEmployeeOrAdminCases` | users/permissions.py:24-28 | an inactive user is never let in; an active user is let in exactly when an employee or staff |
| `Permissions.ViewProfileCases` | users/permissions.py:31-42 | the owner may always view; a non-owner exactly when an employee or staff; the active flag plays no part |
| `Permissions.GrantsAreMonotone` | users/permissions.py:28 | granting the employee group or the staff flag never withdraws any of the permissions |
| `UserViews.ProfilePermission` | users/views.py:24-31 | DELETE and only DELETE uses the admin guard; the safe methods use the view guard; POST, PUT and PATCH use the owner guard |
| `UserViews.ProfileAccessCases` | users/views.py:24-31 | deletion takes staff, so a non-staff owner cannot delete their own profile; viewing takes ownership, the employee group or staff; editing takes ownership alone |
| `UserViews.RetrieveProfile` | users/views.py:29-30 | a profile is shown exactly when it exists and the requester may view it; a missing one is not found, an existing one the requester may not view is forbidden |
| `UserViews.UpdateProfileDecision` | users/views.py:31 | a profile update is not found, then forbidden for anyone but the owner; for the owner it is the serializer's result, with its errors reported as invalid |
| `UserViews.DestroyProfileDecision` | users/views.py:26-28 | a profile deletion is forbidden for non-staff, even for a missing profile, and otherwise goes ahead exactly when the profile exists |
| `UserViews.ChangePasswordDecision` | users/views.py:37-44 | the password change succeeds exactly when the serializer is valid, and the stored password then checks exactly against the new one; otherwise the serializer's errors are returned |
| `UserViews.ChangePasswordSwapsCredentials` | users/views.py:41-42 | after a change the old password no longer checks and the new one does |
| `UserSerializers.CreateUser` | users/serializers.py:17-25 | `create` fails under `password` exactly when the password is missing or empty; otherwise the user has the given key, email, phone number and city, a password that checks exactly against the given one, and the model's defaults |
| `UserSerializers.RegisterResult` | users/serializers.py:8-25 | a registration with field errors reports exactly those errors and creates nothing; with none, `create` decides |
| `UserSerializers.RegisterNeedsPassword` | users/serializers.py:19-21 | a registration without a password fails under `password` |
| `UserSerializers.RegisterDuplicateEmailRejected` | users/models.py:30 | registering an email another user has fails under `email` |
| `UserSerializers.RegisterSound` | users/serializers.py:17-25 | a registered user has the given email; its password passed the policy and checks exactly against the given one; it has the given key, is active, not staff, with no groups, and stores the given phone number and city (null when not given); emails stay unique |
| `UserSerializers.UpdateUser` | users/serializers.py:27-33 | `update` fails under `password` exactly when the payload carries a password |
| `UserSerializers.UpdateProfileResult` | users/serializers.py:27-33 | a profile update is accepted exactly when the field checks pass and no password is sent; field errors come first and are reported as they are |
| `UserSerializers.ProfileUpdateRejectsPassword` | users/serializers.py:29-32 | an otherwise valid profile update carrying a password is refused under `password` |
| `UserSerializers.ProfileUpdateSound` | users/serializers.py:33 | an accepted profile update writes only the given keys (email, phone number, city); identity, password, flags and groups stay; emails stay unique |
| `UserSerializers.ChangePasswordValidate` | users/serializers.py:36-51 | a password change passes exactly when both fields pass their checks, the old password checks, and the new one differs from it; the result is the new password, which passed the policy |
| `UserSerializers.WrongOldPasswordFirst` | users/serializers.py:46-47 | a wrong old password is reported under `old_password` before the equality check |
| `UserSerializers.SamePasswordRejected` | users/serializers.py:49-50 | re-using the current password is refused under `new_password` |
| `UserSerializers.WeakNewPasswordRejected` | users/serializers.py:40 | a new password that breaks the policy is refused under `new_password` with the policy's message |
| `Store.Database.constructor` | electronics_network/models.py:14-46 | an empty store is valid |
| `Store.Database.ClearDebt` | electronics_network/admin.py:8-11 | the member table becomes the cleared table; the count is the number of selected rows present; nothing else changes |
| `Store.Database.PerformCreate` | electronics_network/views.py:46-48 | a refused create writes nothing; an accepted one inserts the new row and its contact under the next key |
| `Store.Database.PerformUpdate` | electronics_network/views.py:50-54 | a refused update writes nothing; a contact payload for a member without a contact fails with nothing written; otherwise the row is patched and the contact merged |
| `Store.Database.SaveUpdate` | electronics_network/serializers.py:64-79 | the member row becomes the patched row, and the contact the merged contact when the payload touches it |
| `Store.Database.SaveContact` | electronics_network/serializers.py:67-72 | the stored contact becomes the merged contact |
| `Store.Database.DestroyMember` | electronics_network/models.py:22-29 | a refused delete writes nothing; an accepted one removes the row and its contact and nulls the dependents' supplier |
| `Store.Database.DeleteUser` | electronics_network/models.py:34-39 | deleting a user removes it, the members it created and their contacts |
| `Store.Database.CreateUser` | users/models.py:9-17 | a refused `create_user` writes nothing; an accepted one inserts the built user under the next key |
| `Store.Database.CreateSuperuser` | users/models.py:19-23 | as `create_user`, and the new user is staff and superuser unless the caller said otherwise |
| `Store.Database.Register` | users/views.py:11-15 | registration takes no permission; a refused one writes nothing; an accepted one inserts the new user under the next key |
| `Store.Database.UpdateProfile` | users/views.py:18-31 | a refused profile update writes nothing; an accepted one replaces the profile row |
| `Store.Database.DestroyProfile` | users/views.py:26-28 | a refused profile deletion writes nothing; an accepted one deletes the user with its members |
| `Store.Database.ChangePassword` | users/views.py:37-44 | an invalid request writes nothing; a valid one replaces only the requester's password, which then checks exactly against the new one |

## Left out

- HTTP routing, status codes, Swagger annotations and response bodies are framework I/O. Outcomes are `Failure` values (forbidden, not found, invalid, server error).
- Requests by anonymous users are not modelled. Each operation takes the authenticated requester. The default `IsAuthenticated` gate on the password endpoint is therefore part of the framework.
- Unsupported methods on an endpoint (answered 405 by the framework) are not modelled.
- The product viewset, the product serializer and the product-member many-to-many link are not modelled. They carry no business rule beyond the same `IsActiveEmployeeOrAdmin` gate, and the member's `products` key is read-only.
- Reads of the member list are not modelled: pagination (electronics_network/paginators.py) and the country filter (electronics_network/filters.py) configure library classes, and `icontains` depends on Unicode case folding. Retrieving one member passes the same gate as `NetworkViews.DestroyDecision`.
- JWT issuance is not modelled.
- Password hashing is symbolic: the stored password is `Digest(raw)` and `check_password` holds exactly for that raw value.
- `normalize_email` is a foreign call and is passed to the manager as a function.
- Python's Unicode `isalnum` and regex `\d` are a `CharClasses` parameter. The facts the test-vector lemmas rely on are stated in `Validators.Standard`: ASCII letters, Russian letters and ASCII digits.
- The email-format check of the email fields, and the whitespace trimming of text fields, are not modelled. Each field reports one error kind rather than the framework's list of messages.
- `NetworkSerializers.CheckFields`: an unknown supplier key and a value that is not a number are not distinguished from the modelled errors. A debt with more than two decimal places cannot arise, because debt is integer cents.
- Timestamps are a parameter (`now`). Primary keys come from counters in the store.
- Transactions are not modelled. The one failing write path (the missing-contact branch of `update`) fails before anything is saved.
- The admin edit form's own validation is not modelled. Only the read-only columns are: `NetworkAdmin.SaveChangeForm`.
- The admin display helpers, `message_user`, users/admin.py and the two management commands are UI and fixture loading.
- `Services.Level`, `Services.GetSupplyChainLevelBySupplier` and `NetworkModels.MemberLevel` require that the chain walked from the starting reference ends (`Services.ChainEnds`); the rest of the store may hold cycles (`Services.LevelBesideACycle`). When the walked chain runs into a cycle the source loop does not end (`Services.ChainIntoCycleNeverEnds`, `Services.CycleNeverEnds`).
- `Store.Database.PerformUpdate`: for a member that has no contact yet, a non-empty contact payload makes `update` call the contact constructor with a field the model lacks (`member=` instead of `network_member=`). That raises, so the request fails as a server error with nothing written, rather than creating a contact.
