# Orion: what the update, login and tenant machinery guarantees

Orion ships software and rule packages to network sensors of many tenants and offers a management API to
their users. This project models the three state machines at its centre and proves what they keep over
whole runs.

* **Tenants and their tables** (`Tables`, `Schema`, `Text`, `DbUtil`, `Store`, `Migration`, `Operations`,
  `Allocator`, `DbAnswers`). The relational schema as maps with its constraints, the database helpers, the id blocks and
  sequences, and the eight-statement transaction that moves a tenant to another environment.
* **Logins and sessions** (`Auth`, `Sessions`, `AuthAnswers`, `Lockout`, `OverlappingLogins`). Failure counters and locks,
  refresh tokens, access tokens with an expiry (section 4.1.4 of RFC 7519), and user management, as runs of
  requests and maintenance steps against one clock.
* **Fleet updates** (`Versions`, `ObjectLocation`, `NetworkAgents`, `Archive`, `ArchiveLayout`,
  `ArchiveReach`, `Sensor`, `SensorSafety`, `SensorReach`, `SensorFolders`, `SensorOutcome`,
  `OverlappingInstalls`, `Fleet`, `Publish`, `PublishRuns`). Publishing, the update manifest, download, hash check,
  installation into one of two folders behind a symlink, and poll rounds, with a failure outcome at every step that
  can fail.

`dafny verify dfyconfig.toml` checks the whole project.

## How the model is built

A value `Db` holds every table as a map from primary key to row. The helpers of `apis/dbutil.go` are functions
from `Db` to `Db` in `DbUtil`, and the methods of the class `Store.Database`, which change one field per table
in place, are proved equal to them. In the same way the request handlers are methods of `Auth.Server` and
`NetworkAgents.AgentApi`, the migration script is `Migration.MoveTenant`, the installer is the class
`Sensor.Updater`, the archive loop is `Archive.Filesystem.ExtractTarGz`, one poll is `Fleet.CheckUpdates` and the
publisher is `Publish.PublishPackage`. Runs are lists of operations, requests, rounds or publishing steps, and
the theorems are about those lists.

Which step fails, what a download brings, what the server has on offer, the current time, and every random id or
token are inputs, so a theorem over all inputs is a theorem over all of them.

Assumptions, all of them inputs to the statements rather than facts about the code: bcrypt, SHA-256 and HMAC are
ideal (equal digests mean equal bytes, accepted access tokens are ones the server signed); user ids are never
drawn twice; handlers of the login machine are atomic except in `OverlappingLogins`; the sensor's two folders are
canonical directories, apart, different under case folding, with the scratch folder outside both; where it matters a disk is a tree, that is,
whatever lies on it lies in a folder, and nothing is both file and folder; a version is
dotted numbers compared place by place with missing places read as zero, and any other text does not parse.

Where the code and the words around it differ, the model follows the code:

* `apis/handlers_auth.go:362-363` says that an administrative password reset clears the lock. The API handler
  does (`apis/handlers_users.go:156`); the database helper the command line tool uses does not
  (`apis/dbutil.go:1438-1453`). `Lockout.ClearsFor` has only the former.
* The refresh handler accepts a token at its very expiry time (`time.Now().After`), and logout revokes only tokens
  that expire later than now, so one refresh is possible in the instant of the logout
  (`Sessions.RefreshAfterLogoutIff`).
* The lock file does not exclude a second installer: its removal is deferred before it is looked up, so a refused
  call deletes the lock it did not take (`OverlappingInstalls.RefusedCallOpensTheDoor`). Exactly when it keeps installs
  apart is `OverlappingInstalls.KeptApartIff`; what a stale lock costs one installer is `Fleet.StaleLockCostsOne`.
* The cleaning of `bin/*` takes the star literally, and the rules glob has no slash before its star unless the
  setting is empty or ends in one. A deployed folder is the archive laid over what was there; it is the archive
  itself exactly under the conditions of `SensorFolders.DeployedIsArchiveIff` and
  `SensorFolders.RulesFolderIsArchiveIff`.
* A name in an archive may climb out of the folder it is unpacked into. The folder in use is safe from a download
  exactly when its archive does not reach it (`SensorReach.ActiveFolderSafeIff`).
* `objupdater/main.go:268-275` looks the tenant up but ignores the answer, so a publish for a missing tenant gets as
  far as the catalog row.
* The migration script takes the tenant's environment from a line in which the name stands before it, with bars
  between. A bar or a line break in the name makes it read another one (`Migration.ReadsEnvironment`).
* The migration does not move `users`: the deletion of the old tenant takes them (`Migration.CommittedMigrationMoves`).
* A tenant id that is given out again by hand is the same tenant to an access token signed before: "the caller's
  tenant" in the session theorems is the id in the token.

## Model

| member | source | states |
|---|---|---|
| Schema.SequenceServesBlock | db/schema_pg_v3.sql:20-46 | The sequence `get_next_tenant_id` finds for a known environment exists and counts through exactly that environment's id block |
| Schema.BlocksAreDisjoint | db/schema_pg_v3.sql:20-27 | No id lies in the blocks of two environments |
| Schema.EmptyIsConsistent | db/schema_pg_v3.sql:49-230 | The database right after the schema script satisfies the whole invariant |
| Schema.WithoutTenantConsistent | db/schema_pg_v3.sql:49-230 | Deleting a tenant with every cascade keeps the invariant |
| Store.Database.GetNextTenantID | db/schema_pg_v3.sql:152-166 | Draws the next value of the environment's sequence, or none once a non-cycling sequence is used up |
| Store.Database.InsertTenantRow | db/schema_pg_v3.sql:49-57 | Inserts exactly when primary key, unique name, range trigger and name length allow it |
| Store.Database.GetOrInsertTenant | apis/dbutil.go:205-244 | Answers the tenant of that name, or draws an id and creates it; the whole new state |
| Store.Database.InsertTenantWithSpecificID | apis/dbutil.go:248-274 | Refuses ids outside the environment's block; the whole new state |
| DbAnswers.ChosenIdIff | apis/dbutil.go:248-274 | A chosen id is granted if and only if it is free and in the environment's block and the name fits and is free; the tenant is then the one new row |
| Store.Database.DeleteTenant | apis/dbutil.go:298-313 | Removes the tenant and everything the foreign keys cascade to, or changes nothing |
| Schema.NothingLeftOfTenant | db/schema_pg_v3.sql:59-135 | Once a tenant is deleted no row of any table is left of it, and exactly its users' refresh tokens and its API keys are gone with them |
| DbAnswers.OtherTenantsStay | db/schema_pg_v3.sql:59-135 | Every row of every other tenant stays as it was, with its keys and refresh tokens, and so does what belongs to no tenant |
| Schema.LowerFolds | db/schema_pg_v3.sql:217 | Emails are told apart up to the case of the 26 letters, and of no other character |
| Store.Database.GetOrInsertDevice | apis/dbutil.go:369-406 | Answers the tenant's device of that name or inserts one; the whole new state |
| DbAnswers.DeviceAnswer | apis/dbutil.go:369-406 | A device is answered if and only if the fields fit, the tenant exists, and it has a device of that name or the id is free; a new row is the one asked for |
| Store.Database.UpdateDeviceFields | apis/dbutil.go:468-524 | Changes only pin and location of a device of that tenant |
| DbAnswers.DeviceFields | apis/dbutil.go:468-524 | Accepted if and only if a field is given, the location fits and the device is the tenant's; each field given is then what it was set to, each other field and device what it was |
| Store.Database.DeleteDevice | apis/dbutil.go:1165-1188 | Removes the device and its keys, leaves its status and version rows |
| Store.Database.GetOrInsertAPIKey | apis/dbutil.go:545-578 | Answers the device's key or inserts one for a device of that tenant |
| Store.Database.DeleteAPIKey | apis/dbutil.go:1191-1206 | Removes the key, and says whether it was there |
| DbAnswers.KeyLifecycle | apis/dbutil.go:545-578 | A key given to a device without one authenticates for it if and only if it was asked to be active; no other key opens more or less than before |
| DbAnswers.DeletedKeyIsShut | apis/dbutil.go:1191-1206 | A deleted key authenticates for nobody, every other key for whom it did |
| DbAnswers.DeletedDeviceIsShut | apis/dbutil.go:1165-1188 | With a device goes its key: nobody authenticates as it any more, and other devices notice nothing |
| Store.Database.InsertHndrSw | apis/dbutil.go:625-678 | Overwrites the row of that version unless the digest is the same, else inserts one with a new id |
| Store.Database.InsertHndrRules | apis/dbutil.go:730-791 | The same among one tenant's rules; refuses a missing tenant |
| Store.Database.InsertThreatIntel | apis/dbutil.go:832-885 | The same for threat intelligence |
| DbAnswers.StoredPackages | apis/dbutil.go:625-885 | A package is stored if and only if version, digest and size are given and, for rules, the tenant exists; only the table of its type changes |
| DbAnswers.PackageRows | apis/dbutil.go:625-678 | The row of the version becomes the package unless it had its digest already, a new version becomes the newest, and all rows of other versions stay |
| DbAnswers.RulesRows | apis/dbutil.go:730-791 | The same among the rows of one tenant, with those of the others left alone |
| DbAnswers.NewVersionIsCandidate | apis/handlers_network_agents.go:156-178 | A software version published for the first time is at once the candidate of the devices without a pin and of those pinned to it, and of no other |
| DbAnswers.NewRulesAreCandidate | apis/handlers_network_agents.go:180-188 | New rules are at once the candidate of the tenant's devices; other tenants keep theirs |
| Store.Database.DeleteHndrSw | apis/dbutil.go:691-706 | Removes the version's row, and says whether there was one |
| Store.Database.DeleteThreatIntel | apis/dbutil.go:1235-1258 | Removes the version's row, and says whether there was one |
| Store.Database.DeleteHndrRules | apis/dbutil.go:1209-1232 | Removes the tenant's row of that version, and says whether there was one |
| DbAnswers.WithdrawnVersions | apis/dbutil.go:691-706 | A withdrawn version has no row any more, and every other row of the three tables stays |
| Store.Database.InsertStatus | apis/dbutil.go:919-980 | Merges the report into the row of this device and tenant, refused when the device id is held by another tenant's row |
| Store.Database.DeleteStatus | apis/dbutil.go:1261-1284 | Removes the status row of an existing device of that tenant |
| Store.Database.InsertVersions | apis/dbutil.go:1059-1115 | The same merge for reported versions |
| Store.Database.InsertUser | apis/dbutil.go:1370-1381 | Inserts an active user with cleared counters unless the email is taken in any case |
| Store.Database.DeleteUser | apis/dbutil.go:1421-1435 | Removes a user of that tenant with all its refresh tokens |
| Store.Database.ResetUserPassword | apis/dbutil.go:1438-1453 | Replaces the hash and nothing else, on the whole state; what that does to logins is `AuthAnswers.ResetTakesEffect` |
| Store.Database.DeactivateUser | apis/dbutil.go:1456-1470 | Clears the active flag and nothing else |
| Store.Database.RecordFailedAttempt | apis/handlers_auth.go:344-360 | One more failure, and from the third on a lock of ten minutes |
| Store.Database.ClearLockout | apis/handlers_auth.go:364-375 | No failures and no lock |
| Store.Database.InsertRefreshToken | apis/handlers_auth.go:381-396 | Stores the digest of the token, unrevoked, with its expiry |
| Store.Database.RevokeRefreshTokens | apis/handlers_auth.go:425-436 | Revokes the user's unrevoked tokens that expire later than now |
| Store.Database.ListUsers | apis/dbutil.go:1385-1418 | Lists exactly the users the filter shows, each once: the tenant's, or all for tenant 0 |
| Store.Database.ListDevices | apis/dbutil.go:420-447 | Lists exactly the devices the filter shows, each once: the tenant's, or all when the tenant is not positive |
| DbUtil.TenantAskedAgain | apis/dbutil.go:205-244 | Asking again for a tenant of the same name, in any environment, answers the same id and changes nothing |
| DbUtil.DeviceAskedAgain | apis/dbutil.go:369-406 | Asking again for a device of the same name answers the same device and changes nothing |
| DbUtil.KeyAskedAgain | apis/dbutil.go:545-578 | Asking again for a device's key answers the same key and changes nothing |
| DbUtil.ReportShows | apis/dbutil.go:1059-1115 | A stored report shows in the row, what it leaves empty stays, and repeating it changes nothing |
| DbAnswers.ReportedColumns | apis/dbutil.go:1059-1115 | Column by column the row says what the report says, and where it says nothing what it said before; refused if and only if the row is another tenant's |
| Operations.PerformKeepsConsistent | apis/dbutil.go:205-1470 | Every operation keeps the invariant: references hold, each key's device exists and has the key's tenant, each device has one key, names are unique, each tenant id lies in its environment's block, sequences stay in range |
| Operations.Run | db/schema_pg_v3.sql:49-230 | The invariant holds after every list of operations, cascades and migration included |
| Operations.OtherOpsFrame | apis/dbutil.go:369-1284 | Only tenant operations touch tenants and sequences, only tenant and user operations touch users and sessions |
| Operations.PerformKeepsAccounts | apis/dbutil.go:1370-1470 | No operation on the tables moves a user to another tenant, brings it back to activity, touches its failure counter, or changes a refresh token |
| Allocator.SequencesMoveByDraws | apis/dbutil.go:164-175 | A sequence moves exactly when an operation gets as far as asking it for an id |
| Allocator.StepOfIds | db/schema_pg_v3.sql:152-166 | A drawn id is handed out for good by the one sequence that had not handed it out |
| Allocator.NeverDrawnTwice | db/schema_pg_v3.sql:30-46 | In every run, no tenant id is drawn twice, across all environments |
| Allocator.CapacityNeverNegative | db/schema_pg_v3.sql:255-267 | `remaining_capacity` is never negative, and zero only when every id of the block is taken (pigeonhole) |
| Allocator.FirstFreeIsFirst | apis/dbutil.go:205-273 | The search for a free id finds one exactly when there is one, and the smallest |
| Allocator.OneCall | apis/dbutil.go:205-244 | One call for a new name draws one id and creates the tenant with it, or finds it taken by hand, or finds the sequence used up |
| Allocator.RetryEnds | apis/dbutil.go:205-273 | Retrying answers the first free id ahead of the sequence with the tenant created, or ends with the sequence used up and no tenant changed, within as many calls as ids are left |
| Allocator.AnswerInBlockIff | apis/dbutil.go:205-244 | An answered id lies in the handle's block if and only if, before the call, no tenant had the name or the one that had it was recorded under the handle's environment |
| Allocator.AnswerOutsideBlock | apis/dbutil.go:214-222 | A concrete database in which it does not |
| Text.NumeralOfDecimal | db/move-tenant.sh:359-365 | Reading back a printed id gives the id |
| Text.RemoveUndoesAppendIff | db/move-tenant.sh:358-370 | For an unbordered text, appending and then replacing all occurrences restores exactly the names that do not contain it |
| Migration.SuffixUnbordered | db/move-tenant.sh:359-365 | `-migrating-A-to-B` has no border, for all decimal A and B |
| Migration.CommittedMigrationMoves | db/move-tenant.sh:354-402 | A commit retags exactly the old tenant's devices, keys, rules, status and version rows, conserves the five counts, loses exactly the old tenant's users and their tokens, and changes nothing else |
| Migration.MigrationConsistent | db/move-tenant.sh:354-402 | The database after a commit satisfies the whole invariant |
| Migration.CommitsIff | db/move-tenant.sh:358-370 | Apart from outside failures the transaction commits if and only if name plus suffix fits in 128 characters and is free, the new id is free, and the name with every suffix taken out is not empty and no other tenant's |
| Text.CutOneLine | db/move-tenant.sh:219-220 | On a text of one line the cut in a command substitution gives the part of that line |
| Migration.ReadsEnvironment | db/move-tenant.sh:212-220 | For a name of one line the script reads the row's environment when the name has no bar, and else what stands between the name's first bar and the next |
| Migration.ReadsRightIff | db/move-tenant.sh:212-220 | So it reads the right environment if and only if the name has no bar or has that very environment behind its first one |
| Migration.BreakReadsNothing | db/move-tenant.sh:212-220 | From a name with a line break and no bar it reads an empty environment |
| Migration.StaysInStaging | db/move-tenant.sh:228-232 | A tenant of private-staging whose name is "x", a bar and "aws-prod" is not moved to aws-prod |
| Migration.MovesWithinEnvironment | db/move-tenant.sh:228-402 | A tenant of aws-prod whose name is "x", a bar and "y" is moved to aws-prod, under a new id |
| Migration.ScriptCommitsIff | db/move-tenant.sh:212-402 | The script with its own suffix commits if and only if a condition known before it starts holds, in which the environment is the one the script reads; the tenant then has the drawn id, and has kept its name if and only if the name did not contain the suffix |
| Migration.NameKeptIff | db/move-tenant.sh:358-370 | A committed move keeps the name if and only if the name did not contain the suffix |
| Migration.RunTransaction | db/move-tenant.sh:354-402 | Whichever statement fails, nothing has changed; otherwise the state is that of the eight statements |
| Migration.RunStatements | db/move-tenant.sh:357-398 | The statements in order, stopping at the first that fails |
| Migration.RetagStatements | db/move-tenant.sh:372-395 | The five updates retag exactly the rows of the old tenant |
| Migration.MoveTenant | db/move-tenant.sh:212-402 | The whole script: exactly when it refuses, plans, rolls back and commits, the id that stays drawn in a dry run or rollback, the range check that never fails, the committed state, and the invariant |
| AuthAnswers.MoveAccountsIff | db/move-tenant.sh:354-402 | A move takes the old tenant's users and their refresh tokens away if and only if it commits |
| Migration.AfterMoveSequences | db/move-tenant.sh:284-298 | The script moves the target's sequence by one exactly when it gets as far as asking for an id |
| Auth.NumericDate | apis/handlers_auth.go:64-78 | Token times are whole seconds, at most one second early |
| Auth.Server.HandleUserLogin | apis/handlers_auth.go:103-191 | The handler's answer and new state for every case, in order: unknown, inactive, locked, wrong, right |
| AuthAnswers.LoginAnswers | apis/handlers_auth.go:103-191 | Each answer if and only if the one row with that email, in any case, is as it says: the right password of an active, unlocked user is always let in, with the claims of the row |
| AuthAnswers.UnknownUserIff | apis/handlers_auth.go:313-340 | Answered exactly when no row has that email in any case |
| AuthAnswers.LoginRows | apis/handlers_auth.go:344-375 | A login changes at most the two lockout columns of that one row |
| Auth.Server.HandleAccessTokenRefresh | apis/handlers_auth.go:195-260 | Grants an access token exactly for an unrevoked, unexpired token of an active user |
| Auth.Server.HandleUserLogout | apis/handlers_auth.go:264-283 | Revokes the caller's refresh tokens |
| Auth.Server.HandleCreateUser | apis/handlers_users.go:47-99 | Only for administrators, into the caller's tenant |
| AuthAnswers.CreateOkIff | apis/handlers_users.go:47-99 | Accepted if and only if the caller is an administrator, the request complete with twelve characters of password, the tenant there, and id and email free; which refusal says which of it failed |
| AuthAnswers.CreatedLogsIn | apis/handlers_users.go:47-99 | A user just created logs in with that password and no other, under the email in any case, with the role asked for in the creator's tenant |
| Auth.Server.HandleDeleteUser | apis/handlers_users.go:102-119 | Only for administrators, never oneself, only in the caller's tenant |
| Auth.Server.HandleResetPassword | apis/handlers_users.go:123-158 | Analysts only their own; clears the lock when the user is of the caller's tenant |
| AuthAnswers.ResetChanges | apis/dbutil.go:1438-1453 | An accepted reset replaces the hash, opens the lock, and leaves every other column and row as it was |
| AuthAnswers.ResetTakesEffect | apis/handlers_users.go:123-158 | After it an active user logs in with the new password, and with every other one is answered that it is wrong |
| Auth.Server.HandleListUsers | apis/handlers_users.go:31-44 | The users of the claimed tenant, for administrators only |
| Auth.Server.HandleListDevices | apis/handlers_resources.go:52-60 | The devices of the claimed tenant |
| Sessions.NextDbSteps | apis/handlers_auth.go:103-283 | Every request keeps the invariant; no step moves a user, brings one back to activity, or brings back a revoked token |
| Sessions.SignedFor | apis/handlers_auth.go:64-78 | An access token is signed only for an active user, with exactly the email, role and tenant of its row and the life the configuration gives it, after a login or for a live refresh token |
| Sessions.ApplyKeepsInv | apis/handlers_auth.go:64-283 | What issued tokens say of user, email, role and tenant keeps agreeing with the users they were issued to |
| Sessions.Exec | apis/handlers_auth.go:103-283 | The invariant holds after every possible list of requests and maintenance steps |
| Sessions.LoginGivesSession | apis/handlers_auth.go:160-190 | A completed login's access token is accepted exactly until its expiry, its refresh token exactly up to its own |
| Sessions.RequestsStayInTenant | apis/handlers_users.go:47-158 | No request made with an access token touches a user of another tenant or its sessions |
| Sessions.SessionConfinement | apis/handlers_auth.go:64-98 | If a user logs out at t and an access token of that user is accepted at or after t + TTL, the user has completed a login after the logout |
| Sessions.RefreshAfterLogoutIff | apis/handlers_auth.go:221-247 | After a logout at t a refresh token of the user is honoured if and only if it was unrevoked and expires at t, and only at t |
| Sessions.NoAccessAfterEnd | apis/dbutil.go:1421-1470 | After deactivation, deletion, deletion of the tenant or a committed move at t, no access token of the user is accepted at or after t + TTL in any continuation |
| Sessions.IssuedWasSigned | apis/handlers_auth.go:64-78 | Every token issued in a run was signed in some step of it |
| Sessions.ClaimsComeFromRow | apis/handlers_auth.go:64-78 | Behind the claims of an accepted token stands, in some step of the run, the active row of its user with that email, role and tenant, and the row says so still if it is there |
| Sessions.AdministratorsOnly | apis/handlers_users.go:47-119 | Creating and deleting users is granted only to a token whose user's row said administrator when it was signed, and says so now if it is still there |
| AuthAnswers.AcceptedUntilExpiry | apis/handlers_auth.go:81-98 | In every reachable state a token is accepted if and only if it was issued and has not expired |
| AuthAnswers.SessionLastsIff | apis/handlers_auth.go:195-283 | Along every run the refresh token of a login brings its user access tokens up to its expiry if and only if the user is still there and active and has not logged out before that expiry |
| AuthAnswers.TokensAfterStep | apis/handlers_auth.go:378-436 | The refresh tokens after any step, one by one: gone exactly with their user, revoked exactly by their own user's logout before they expire, new exactly from a completed login |
| AuthAnswers.PasswordStep | apis/dbutil.go:1438-1453 | No step but an accepted reset, or one by the operator, changes a stored password |
| AuthAnswers.LastPasswordOpens | apis/handlers_auth.go:144-158 | However a run goes, the password last given to a user who is then active and not locked opens the account, and no other does |
| AuthAnswers.OpenUntilEnded | apis/dbutil.go:1421-1470 | A step leaves an active account there and active if and only if it is none of those that end it |
| Sessions.ListsStayInTenant | apis/handlers_users.go:32-37 | Behind every accepted access token stands a positive tenant id, so what the two list methods answer is exactly the rows of that tenant and the "0 means all" case is never reached |
| Sessions.ReachableListsStayInTenant | apis/handlers_resources.go:52-60 | The same in every state reachable from the empty database |
| Lockout.OtherStepsKeepCounters | apis/handlers_auth.go:344-375 | Only a wrong password, a right one or a reset over the API touches a user's counters |
| Lockout.ClearingClears | apis/handlers_users.go:151-156 | A right password and an accepted reset leave no failure and no lock |
| Lockout.FailureStep | apis/handlers_auth.go:144-158 | A wrong password is compared only while no lock is in force and adds one failure; from the third on it locks for exactly ten minutes, before that it locks nothing |
| Lockout.FailuresAfterThird | apis/handlers_auth.go:46-49 | The n-th failed comparison comes at least (n - 3) * 10 minutes after the third |
| Lockout.ComparisonsPerSpan | apis/handlers_auth.go:144-158 | Hence at most 3 + T / 10 min comparisons over a span T |
| OverlappingLogins.NoCountLost | apis/handlers_auth.go:344-360 | However k handlers interleave, every comparison is counted once or about to be |
| OverlappingLogins.AtMostTwoPlusK | apis/handlers_auth.go:126-158 | At most 2 + k passwords are compared before the lock of the third recorded failure can run out |
| OverlappingLogins.TwoPlusKReached | apis/handlers_auth.go:126-158 | For every k a run reaches the bound |
| OverlappingLogins.SerialIsLogin | apis/handlers_auth.go:103-158 | One handler's steps taken at one instant do to the row what the login handler does |
| Versions.ParseOfPrint | apis/handlers_network_agents.go:304-315 | A printed version parses back, with a leading v or r or neither |
| Versions.EqualIff | apis/handlers_network_agents.go:316-324 | Two versions are equal if and only if all their places are, missing ones read as zero |
| Versions.CompareFlips | apis/handlers_network_agents.go:316-318 | The order is antisymmetric |
| Versions.CompareTransitive | apis/handlers_network_agents.go:316-318 | The order is transitive, strictly when one step is |
| Versions.CompareIff | apis/handlers_network_agents.go:316-324 | Which way the order points: below if and only if smaller at the first place where the two differ |
| Versions.DottedIff | apis/handlers_network_agents.go:308-315 | A text parses to a version if and only if its parts between the dots are numbers with those values |
| Versions.TrimTakesLetters | apis/handlers_network_agents.go:308-315 | What is taken off in front is every v and r up to the first other character |
| Versions.NeededIff | apis/handlers_network_agents.go:304-326 | When a package is offered, place by place: to a device that reports nothing, to one at a lower version, and to one of the same version that reports another digest |
| Versions.InstalledIsNotOffered | apis/handlers_network_agents.go:304-326 | What a device has just installed is not offered again, whether or not its version parses |
| Versions.OfferIsNoDowngrade | apis/handlers_network_agents.go:304-326 | An offer to a device that reports a version parses and is not below it at the first differing place; text that does not parse is never offered a replacement |
| Versions.OffersGoOneWay | apis/handlers_network_agents.go:304-326 | Of two different versions the higher is offered to a device at the lower, and the lower is not to one at the higher |
| ObjectLocation.DottedIff | objupdater/main.go:103-104 | The version matcher accepts exactly what the pattern describes |
| ObjectLocation.RulesNameIff | objupdater/main.go:104-124 | The rules file matcher accepts exactly its pattern, with the only possible digits and version |
| ObjectLocation.BaseOfPath | objupdater/main.go:107 | The file name in a path is what stands behind its last slash, slashes at the end not counted |
| ObjectLocation.ParsedIff | objupdater/main.go:78-136 | A file is accepted as a version of its type if and only if it is named as the pattern of that type says and the tenant is given exactly for rules; it is filed under that type, tenant and version |
| ObjectLocation.RewriteDrops | nginx/nginx.conf:48-56 | The rewrite takes exactly the download prefix and the tenant off |
| ObjectLocation.SharedPackagesAreFound | objupdater/main.go:78-136 | For every accepted software or threat intelligence file the manifest URL of the parsed version leads to the stored object, for every tenant |
| ObjectLocation.RulesAreFoundIff | apis/main.go:64-72 | For rules, if and only if the digits in the file name are the tenant id in decimal |
| ObjectLocation.RulesCanBeLost | objupdater/main.go:117-124 | A concrete accepted file that no URL leads to |
| NetworkAgents.AuthenticatedDeviceExists | apis/handlers_network_agents.go:38-59 | In every state of every run, whoever authenticates is a device the tables hold under that tenant |
| NetworkAgents.KeysTellDevices | apis/dbutil.go:581-595 | In every state of every run two keys that authenticate for one device are the same key, and one key authenticates for one device only |
| NetworkAgents.UpdatesAnswer | apis/handlers_network_agents.go:97-152 | The device lookup never misses, and a report is refused if and only if a version row of that device id is left under another tenant |
| NetworkAgents.ReusedDeviceIdIsRefused | apis/dbutil.go:1165-1188 | How that comes about: a device id deleted and used again under another tenant |
| NetworkAgents.ManifestOffersCandidates | apis/handlers_network_agents.go:154-223 | What may be offered is settled by catalog and pin; the reported versions only decide which of it is |
| NetworkAgents.AgentApi.AuthenticateRequest | apis/handlers_network_agents.go:38-59 | The caller behind an active key of that device, or none |
| DbAnswers.AuthenticatesIff | apis/handlers_network_agents.go:38-59 | A key authenticates for a device if and only if it is stored for it and active, and then for the device's tenant |
| NetworkAgents.AgentApi.HandleUpdates | apis/handlers_network_agents.go:97-227 | The answer and the new state, with every refusal in order |
| DbAnswers.ReportedVersionsShow | apis/handlers_network_agents.go:128-141 | Whatever it answers past authentication, the versions reported show in the device's row, column by column, and in no other |
| NetworkAgents.AgentApi.FillManifest | apis/handlers_network_agents.go:154-223 | The manifest, or which of the three candidates is missing |
| DbAnswers.NoSoftwareIff | apis/handlers_network_agents.go:156-178 | No software is found if and only if the pinned version is not there, or there is no pin and no software |
| DbAnswers.MissingPackages | apis/handlers_network_agents.go:156-198 | Which missing package the device is told of, and that it gets a manifest if and only if none is missing |
| DbAnswers.PinnedCandidate | apis/dbutil.go:468-524 | Pinning makes that version's row the candidate, and clearing the pin the newest row |
| Archive.Filesystem.ExtractTarGz | updater/core/updater.go:32-112 | The loop does what the recursive description of unpacking does, under every failure |
| Archive.ExtractRefinesFold | updater/core/updater.go:50-109 | On success the files are the left fold of the entries; on failure the fold of a prefix, and at most one file written in part |
| Archive.LastEntryWins | updater/core/updater.go:50-109 | In the fold each named path holds its last entry's bytes and every other path is as it was |
| Archive.FolderSafeIff | updater/core/updater.go:63-75 | In the fold of the entries, a folder's files stay as they were for all files if and only if no file entry leads into it |
| Archive.InsideIsSafe | updater/core/updater.go:63 | Names that never climb above their folder are safe for every folder apart from it |
| ArchiveLayout.JoinPlain | updater/core/updater.go:63 | A name of plain elements is appended to the folder |
| ArchiveLayout.JoinBack | updater/core/updater.go:63 | Two dots take one element back, up to the root; one dot and an empty element change nothing |
| ArchiveLayout.ExtractsIff | updater/core/updater.go:50-109 | With every step working an archive is unpacked if and only if each entry finds what it needs among what was there and what earlier entries made; the disk then holds the fold of its files and the folders it names, and nothing else is new |
| ArchiveLayout.IsExecutableIff | updater/core/updater.go:87 | The rendered path contains "bin/suricata" if and only if an element that begins with suricata stands right below one that ends in bin |
| ArchiveLayout.ChmodStopsIff | updater/core/updater.go:87-99 | A failing change of permissions stops the unpacking exactly at such a file |
| ArchiveReach.ExtractSafeIff | updater/core/updater.go:50-109 | Unpacking leaves a folder's files alone on every disk and under every failure if and only if no file entry leads into it with everything up to it able to be laid out: no file where a folder is needed or known to be, and every folder there or made by an earlier entry |
| Sensor.Updater.IsUpdateInProgress | updater/core/updater.go:286-302 | Refuses only when the lock was there; takes it otherwise if it can |
| Sensor.Updater.WriteAndVerify | updater/core/updater.go:216-275 | Passes exactly when the file is written and its hash is the manifest's |
| Sensor.Updater.CleanupFilesInFolder | updater/core/updater.go:188-203 | Removes the matching files and empty folders, up to the first match that cannot be removed |
| Sensor.Updater.CleanupSoftwareFolder | updater/core/updater.go:205-213 | The literal star under bin, then the libraries, whose failure is ignored |
| Sensor.Updater.DeploySoftware | updater/core/updater.go:335-369 | Cleans and fills the folder out of use |
| Sensor.Updater.UnlinkAndLink | updater/core/updater.go:160-175 | The symlink leads to the folder, or is as it was, or is gone |
| Sensor.Updater.SaveJSONConfig | updater/core/config.go:40-54 | The record is the new one, or as it was, or unreadable |
| Sensor.Updater.SwitchOver | updater/core/updater.go:371-411 | Stop, flip, start if configured, record, stopping at the first failure, with two ways for the stop to fail |
| Sensor.Updater.UpateSoftwareNow | updater/core/updater.go:305-412 | The whole call, deferred removals included, under every failure |
| Sensor.Updater.UpateRulesNow | updater/core/updater.go:415-490 | The whole call, under every failure |
| SensorSafety.DeploysToOther | updater/core/updater.go:139-147 | Of the pair, the folder not in use is chosen, and choosing twice comes back |
| SensorSafety.ActiveFolderSafe | updater/core/updater.go:305-412 | On every exit no file of the folder in use at entry has changed, if no file name in the archive leads there; the exact condition is in the next rows |
| SensorReach.ActiveFolderSafeIff | updater/core/updater.go:305-412 | A download leaves every file of the folder in use alone, in every state, under every failure and on every exit, if and only if its archive does not reach that folder from the cleaned standby folder |
| SensorReach.ReachingDownload | updater/core/updater.go:305-412 | For each download that does reach it, a state and a call without faults that change a file of the folder in use |
| SensorReach.DotDotWritesActive | updater/core/updater.go:63-75 | With folders laid out as in the sample configuration, an archive of the one name "../hndr-1/x" does so |
| SensorSafety.ContainedArchiveIsSafe | updater/core/updater.go:305-412 | In particular no file there changes for an archive whose names stay inside their folder |
| SensorFolders.ActiveDirsSafe | updater/core/updater.go:305-412 | No directory of the folder in use is made or removed if no entry leads there, but that the folder itself goes when it is empty and the download carries its very name |
| SensorFolders.UnverifiedChangesNothing | updater/core/updater.go:257-275 | Bytes without the manifest's digest change nothing but the scratch file and the lock, in a software or a rules call, whatever fails |
| SensorSafety.NothingBeforeStop | updater/core/updater.go:305-374 | Exits before the stop command leave symlink, service and record unchanged; a stop that fails leaves symlink and record unchanged, and the service running or stopped |
| SensorSafety.SymlinkLeadsToUnpacked | updater/core/updater.go:305-412 | The symlink moves only to the former standby folder, with the archive unpacked in it and the digest right; SUCCESS means that and exactly the software entry replaced |
| SensorSafety.SucceedsIff | updater/core/updater.go:305-412 | With every step working, an update succeeds if and only if lock, file name, scratch file, digest, symlink, archive and record allow it |
| SensorOutcome.ReachesStopIff | updater/core/updater.go:305-374 | Under every failure, exactly when a call gets as far as stopping the service |
| SensorOutcome.OnlyThePair | updater/core/updater.go:139-147 | It does so only when the symlink leads to one of the two folders, whatever the case of its letters |
| SensorOutcome.SpeltOtherwise | updater/core/updater.go:139-147 | However the letters of the path in use are spelt, the other folder of the pair is deployed to |
| SensorOutcome.ServiceAfterSoftware | updater/core/updater.go:371-392 | From the stop command on, on every exit: the service runs again if and only if the symlink could be made anew, the folder it leads to is configured and the start did not leave it stopped |
| SensorOutcome.SuccessRunsIff | updater/core/updater.go:381-392 | SUCCESS leaves the service running if and only if the new folder holds its configuration and it can be seen |
| SensorOutcome.SoftwareOutcome | updater/core/updater.go:371-412 | SUCCESS if and only if every step up to the written record works; the record is lost if and only if the last write fails, and else as it was |
| SensorSafety.ScratchGone | updater/core/updater.go:322-324 | The download is gone on every exit while its removal works |
| SensorSafety.OldBinariesStay | updater/core/updater.go:205-213 | Cleaning leaves the files under bin, but those at or below the name "*" |
| SensorFolders.DeployedIsArchiveIff | updater/core/updater.go:361-369 | After SUCCESS the deployed folder holds exactly the archive's files if and only if each earlier file was named by the archive or is one the cleaning takes |
| SensorFolders.SoftwareTakesIff | updater/core/updater.go:205-213 | Those are the files at or below bin/"*" and, unless a folder of that pattern is in the way, those directly in lib whose name starts with "lib" |
| SensorSafety.OldRulesStay | updater/core/updater.go:455-461 | When the setting ends in a plain name, cleaning leaves every rule inside the rules folder |
| SensorSafety.SlashMakesItClean | updater/core/updater.go:455-461 | The setting has no last element if and only if it is empty or ends in a slash, and then the glob takes the rule files at the top of the rules folder |
| SensorSafety.RulesCleanedIff | updater/core/updater.go:188-203 | A cleaning that succeeds takes exactly the files the setting's text, a star and ".rules" match |
| SensorFolders.RulesFolderIsArchiveIff | updater/core/updater.go:455-470 | After SUCCESS the rules folder holds exactly the archive's files if and only if each earlier file was named by the archive or matched by the glob |
| SensorSafety.StandbySafe | updater/core/updater.go:415-490 | A rules call never moves the symlink, and touches no file of the folder out of use if the rules folder lies in the folder in use and no file name of the archive leads out into the other |
| SensorFolders.StandbyDirsSafe | updater/core/updater.go:415-490 | Nor does it make or remove a directory there under the like conditions |
| SensorSafety.RulesAreUnpacked | updater/core/updater.go:455-470 | On success the archive lies in the rules folder of the folder in use and the service runs |
| SensorOutcome.RulesSucceedIff | updater/core/updater.go:415-490 | With every step working, a rules update succeeds if and only if lock, file name, scratch file, digest, symlink, glob, archive and record allow it, whether or not the service was running |
| SensorOutcome.RulesOutcome | updater/core/updater.go:467-489 | SUCCESS, service and record of a rules call on every exit, under every failure |
| SensorOutcome.RulesDirIsSetting | updater/core/updater.go:455-457 | The rules folder is the setting followed element by element from the folder in use |
| SensorOutcome.MatchedIff | updater/core/updater.go:188-203 | A pattern matches exactly the names that begin and end as it says |
| SensorOutcome.NameBeforeIff | updater/core/updater.go:188-203 | Matches are removed in the order of a dictionary |
| SensorSafety.SoftwareForRuns | updater/core/updater.go:277-412 | What a run needs: record, symlink and lock after a software call, the absorbing cases included |
| SensorSafety.RulesForRuns | updater/core/updater.go:415-490 | The same for a rules call |
| Fleet.CheckUpdates | updater/main.go:58-171 | One poll: the installs in order, and the statuses sent |
| Fleet.StatusesTell | updater/main.go:99-163 | The statuses sent say what happened: nothing for what was not offered, SUCCESS exactly for an install that ended so |
| Fleet.SuccessIsRecorded | updater/main.go:85-145 | After a round that reports SUCCESS for both, the record holds both packages |
| Fleet.RoundSeesManifest | apis/handlers_network_agents.go:154-227 | A round sees exactly the offers of the manifest the server makes from the sensor's record |
| Fleet.PollRecord | updater/main.go:85-145 | The record after a round holds the packages installed in it, or the old entries |
| Fleet.RulesFollowSoftware | updater/main.go:113-145 | A round that installs both puts the rules into the folder the software has just been unpacked in |
| Fleet.RecordTellsLatest | updater/core/updater.go:394-411 | Along every run a readable record says exactly what was last installed with success |
| Fleet.StuckForever | updater/main.go:85-89 | An unreadable record and a missing symlink are for good; the record never changes again |
| Fleet.StaleLockCostsOne | updater/core/updater.go:277-314 | While its removal works, a stale lock costs at most one refused install, and without one none is refused |
| OverlappingInstalls.LockIsHistory | updater/core/updater.go:277-302 | In every interleaving of calls the lock is there if and only if a creation has worked and no end has removed it since, or it was there before and none has |
| OverlappingInstalls.KeptApartIff | updater/core/updater.go:286-314 | In every interleaving of any number of calls, no two installs are under way at once if and only if each call that begins while one is finds the lock |
| OverlappingInstalls.RefusedCallOpensTheDoor | updater/core/updater.go:306-314 | Three calls with every step working: the second is refused and takes the lock away, and the third installs beside the first |
| OverlappingInstalls.SerialIsTakeLock | updater/core/updater.go:277-302 | One call by itself does to the lock what the installer does when it begins and returns |
| Fleet.SoftwareConverges | apis/handlers_network_agents.go:199-206 | With a fixed catalog and pin, manifests that offer software are at most the failed attempts plus one |
| Fleet.RulesConverge | apis/handlers_network_agents.go:207-214 | The same for rules |
| Fleet.OneGoodRoundSettles | updater/core/updater.go:305-412 | One undisturbed round that offers software which can be installed records it, and no later round with that candidate offers it again |
| Fleet.OneGoodRulesRoundSettles | updater/core/updater.go:415-490 | The same for rules |
| Fleet.ThreatIntelNeverSettles | updater/core/updater.go:493-498 | Threat intelligence does not converge: after every run it is offered exactly if it was needed at the start |
| Fleet.NoDowngrade | apis/handlers_network_agents.go:156-187 | Along every run, with any server, recorded versions never get below what they were, place by place, and text that does not parse is never replaced |
| Publish.PathsTellSlots | objupdater/main.go:108-134 | Different packages have different places, and no metadata lies on a package's place |
| Publish.StoredAtSlot | objupdater/main.go:158-190 | A well-named file is stored at its package's place |
| Publish.UrlsLeadToSlots | apis/main.go:64-72 | Every manifest URL leads to its package's place |
| Publish.StepKeepsInv | objupdater/main.go:284-306 | Object, metadata, row, and whatever else happens to the tables, keep: all rows but the one being published match their objects; migrations and rows inserted by hand are among the steps if their objects are in place |
| Publish.ElsewhereMatchesIff | objupdater/main.go:284-306 | Any other change of the tables keeps rows and objects matching if and only if its new rows have their objects in place |
| PublishRuns.MigrationMatchesIff | db/move-tenant.sh:382-424 | A committed move does if and only if the store already holds the moved rules at the places of the new id |
| Publish.RowsMatchOutsidePublish | objupdater/main.go:284-306 | Along every run with one publisher at a time, none aborted, and no row from elsewhere without its object, outside a publish every row's digest is the hash of its stored object |
| Publish.OfferIsRow | apis/handlers_network_agents.go:154-223 | What a manifest offers is a catalog row, with the URL of its place |
| PublishRuns.QuietPollVerifies | updater/core/updater.go:257-275 | A poll that overlaps no publish downloads what was offered, so the hash check cannot fail |
| PublishRuns.InstalledSoftwareWasOffered | updater/core/updater.go:331-335 | In every interleaving: a manifest in one state of a run, the download in a later one; if the call succeeds or changes anything but scratch file and lock, the bytes have the digest of the catalog row that was offered |
| PublishRuns.InstalledRulesWereOffered | updater/core/updater.go:441-445 | The same for rules, the row being one of the caller's tenant |
| PublishRuns.RowIsRightIff | objupdater/main.go:284-306 | Over every run of publishers that overlap and stop as they like, for software, rules and threat intelligence: a row matches its object if and only if the bytes last uploaded to its place are those of the publication accepted last |
| Publish.AbortedPublish | objupdater/main.go:284-306 | One such run: a software publisher stopped after the object leaves the row right if and only if it brought the bytes the row was made for |
| Publish.CrossedPublishers | objupdater/main.go:284-306 | Another: two publishers of one software version that cross leave the row right if and only if they published the same bytes |
| PublishRuns.UploadedIsServed | objupdater/main.go:158-190 | What a publisher of a well-named file has uploaded is what the manifest URLs of its version serve, the metadata beside it notwithstanding |
| Publish.UpdateDatabase | objupdater/main.go:192-222 | The row goes to the table of its type |
| PublishRuns.RowAcceptedIff | objupdater/main.go:192-222 | The row of an accepted file is stored if and only if it has bytes and, for rules, its tenant exists |
| PublishRuns.PublishedSoftwareIsCandidate | objupdater/main.go:284-306 | A software version published for the first time is at once, with its size and hash, the candidate of the devices without a pin and of those pinned to it |
| PublishRuns.PublishedRulesAreCandidate | objupdater/main.go:284-306 | The same for rules and the devices of their tenant |
| PublishRuns.PublishedThreatIntelIsCandidate | objupdater/main.go:284-306 | And for threat intelligence |
| Publish.PublishPackage | objupdater/main.go:224-310 | The program takes exactly the publisher's steps, under every failure |

## Left out

- Time columns other than lock and token expiry (`created_at`, `updated_at`, `last_used_at`), the login audit log, and the order of listed rows: no property here depends on them.
- HTTP, JSON, headers, logging, configuration files and TLS: requests are typed inputs; MinIO, PostgreSQL, supervisorctl, gzip and tar are maps, a running flag and a sequence of entries, with failures as inputs.
- Password hashing: bcrypt refuses passwords over 72 bytes; the model accepts them.
- Text is a sequence of characters: the byte counts of the Go checks and the character counts of the schema are the same number here, and case is folded for ASCII letters only.
- Versions: the pre-release and metadata suffixes of the version library read as text that does not parse, and numbers wider than 64 bits as plain numbers.
- Archives that overwrite their own download in the scratch folder while it is being read: the model goes on with the remaining entries, where the program would run into a truncated archive.
- Archives and globs: symlink entries, symlinks already inside the deploy folders, and glob characters in the names of configured folders.
- The copying of rule metadata in the object store after a migration: it moves only the `.json` files, so that no step of the model puts the moved packages in place; `PublishRuns.MigrationMatchesIff` says what would have to be there.
- Two database calls of one helper that overlap: each helper is one step, so the one-key-per-device and name facts are those of serial calls.
- The command line tools, the provisioner, user administration scripts, schema upgrades and deployment scripts: they wrap the operations modelled here.
- Store.Database.InsertUser: the role check of the schema is the type of the role.
- Auth.Server.HandleCreateUser: an unknown role and an empty password are one refusal with a short password.
- Sensor.Updater.CleanupSoftwareFolder: a removal that fails has removed a given part of the files, in no given order.
