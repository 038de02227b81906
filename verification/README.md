# CrypticQuest: verified model of progression, sessions and content loading

CrypticQuest is a puzzle server. Players solve levels in order, admins edit the
levels under them while they play, and what a player may open is never stored:
it is recomputed on every request by counting solved levels and comparing the
count with a level's rank. This project models that server and proves what the
counting gives.

How it is built:

- `Sets`, `Ranking` — finite sets, and rows ordered by a column: the rows
  `ORDER BY ... LIMIT k` returns against the rows whose counted rank is at most
  `k`, and the *gap* of a set `s`: how many of the first `|s|` rows it lacks.
- `Schema` — the six tables, the AUTOINCREMENT counters and every key, UNIQUE
  constraint and reference, as a datatype `Db` and a predicate `Valid`.
- `Operations`, `OperationFacts` — each store operation as a function of the
  database, and what it does to the catalogue and to every player's solved set.
- `Stores`, `Servers` — the same operations and the request handlers as classes
  over a mutable database: scans, joins, sorting and guards, statement by
  statement, proved equal to those functions.
- `Progression`, `Toolkit`, `Hints`, `Accounts` — what the counting gate, the
  lists, the toolkit, the hints and the admin view mean for one player.
- `System`, `Runs`, `ToolRuns` — the whole server as a transition system, one step
  a request, and what holds over every run; `Counterexample` is one such run.
- `Submissions`, `Requests`, `AccountRequests` — what each kind of request
  achieves, told by what players and accounts observe, and where solves come from.
- `Interleaving` — submissions cut at their separate SQL statements, any number
  in flight, mixed with whole requests that leave the catalogue's order alone.
- `Sessions`, `Credentials`, `SessionRuns` — login, password reset, admission,
  expiry and sliding refresh, with times in nanoseconds, several clock readings per
  request and a store that keeps whole seconds.
- `Seed`, `Migration`, `Files` — the seed loader, migration 2 with its inverse, and
  the file tree's two views.

SQL statements are atomic. Clock readings and freshly drawn tokens are request
parameters. `strings.ToLower` and the password check are arbitrary functions, so
every result holds for all of them.

One claim is false as written. The comments on `ListAccessibleLevels` and
`IsLevelAccessible` say that the accessible levels are every solved level plus the
next unsolved one. The model follows the code: `ClaimCanFail` gives a run of
ordinary requests that ends with a solved level locked, `SolvedPlusNextIff` gives
the exact condition (at most one unsolved level stands before any solved one), and
`DriftBound` and `LinearHistory` say which runs keep it. The file view has a smaller
case of the same kind: when the base itself is a regular file `List` names it "."
and `Open` refuses that name (`EveryListedNameOpensIff`).

## Model

| member | source | states |
|---|---|---|
| Ranking.FirstIsLimit | internal/store/levels.go:35-44 | the rows the ordered, limited query takes are exactly those whose counted rank is at most the limit |
| Ranking.SequenceUnique | internal/store/levels.go:35-44 | a UNIQUE sort column leaves one possible order |
| Stores.OrderBy | internal/store/levels.go:35-44 | sorting lists every row once by value that never falls, and on a UNIQUE column gives the one possible order |
| Ranking.GapCountsOutside | internal/store/progress.go:35-53 | rows missing from the first k are matched one for one by rows held beyond them |
| Ranking.GapAfterPlacement | internal/store/levels.go:182-212 | adding a row or giving one a new place widens a gap by at most one |
| Ranking.GapAfterDelete | internal/store/levels.go:216-226 | deleting a row from the table and from the set never widens a gap |
| Schema.CountIsSolved | migrations/000001_init_schema.up.sql:43-49 | UNIQUE pairs and cascades make the row count the number of solved, existing levels, so the current level lies between 1 and one past the last |
| OperationFacts.RecordSolvedEffect | internal/store/progress.go:8-16 | a solve is stored iff account and level exist; it adds that level to that player and changes nobody else; a failure changes nothing |
| OperationFacts.RecordSolvedKeepsValid | internal/store/progress.go:8-16 | INSERT OR IGNORE keeps UNIQUE(user_id, level_id) and both references |
| OperationFacts.DeleteLevelEffect | internal/store/levels.go:216-226 | deleting a level removes it from the catalogue and from every solved set |
| OperationFacts.DeleteLevelKeepsValid | migrations/000001_init_schema.up.sql:36-49 | after the cascades no hint, progress row or tool names the deleted level |
| OperationFacts.CreateLevelKeepsValid | internal/store/levels.go:182-193 | a new level keeps order_index unique and ids below the counter |
| OperationFacts.UpdateLevelKeepsValid | internal/store/levels.go:197-212 | an edited level keeps order_index unique |
| OperationFacts.DeleteUserEffect | internal/store/users.go:230-239 | deleting an account empties its solved set and no other |
| OperationFacts.DeleteUserKeepsValid | internal/store/users.go:230-239 | sessions and progress go with the account |
| OperationFacts.SetProgressEffect | internal/store/users.go:181-213 | the account's solved set becomes the levels of rank at most level - 1, others keep theirs, constraints hold |
| OperationFacts.SetProgressFrame | internal/store/users.go:181-213 | no table but user_progress changes |
| OperationFacts.SessionOpsKeepValid | internal/store/sessions.go:21-60 | creating, refreshing and deleting sessions keeps every constraint |
| OperationFacts.CreateToolKeepsValid | internal/store/tools.go:152-163 | a new tool names an existing level or none |
| OperationFacts.UpdateToolKeepsValid | internal/store/tools.go:167-181 | an edited tool names an existing level or none |
| Progression.ListAndGateAgree | internal/store/levels.go:22-56 | the list holds exactly the levels the gate opens, each once, by increasing order_index, with the right solved marks, min(current, n) of them |
| Progression.DetailIffListed | internal/handlers/levels.go:43-83 | the level page opens iff the level is on the player's list, and shows the same title and mark |
| Submissions.SubmitVerdict | internal/handlers/submit.go:42-72 | a submission is answered iff the level is on the list, says correct iff the answer matches the flag, and then adds that level to that player and nothing else |
| Submissions.SubmitStep | internal/handlers/submit.go:22-73 | the same for the whole request of an admitted player |
| Submissions.EverySolveIsEarned | internal/handlers/submit.go:52-70 | over every run a newly solved level was solved by that player's own right answer while on the list, or by an admin setting the player's progress |
| Submissions.FlagsStayHidden | internal/handlers/submit.go:52-62 | no player view depends on a flag, and a locked level answers every submission alike whatever its flag |
| Progression.SolvedPlusNextIff | internal/store/progress.go:35-53 | the accessible levels are the solved ones plus the next iff at most one unsolved level stands before any solved one |
| Ranking.CoverIff | internal/store/progress.go:40-53 | the first k + 1 rows cover a set of k rows iff at most one row outside it stands before any of its rows |
| Counterexample.ClaimCanFail | internal/store/levels.go:18-21 | a run from the empty database: an admin adds two levels, a player solves both, the admin puts two more in front, and a solved level is locked |
| Counterexample.DriftIsAttained | internal/store/levels.go:182-226 | in that run two placements since the last reset leave a gap of two, so the drift bound cannot be improved |
| Progression.PrefixTheorem | internal/store/levels.go:18-21 | no gap means the solved set is the first k levels, and then the claim holds; the claim rules out a gap above one |
| Progression.GapBoundsLocked | internal/store/progress.go:24-53 | solved levels beyond the first k number exactly the gap, and all of them are locked but the one that may stand at rank k + 1 |
| Progression.NoDeadEnd | internal/store/progress.go:24-53 | in every valid state a player with something left to solve has an open unsolved level |
| Progression.SetProgressTheorem | internal/store/users.go:181-213 | for N >= 1 the first min(N - 1, n) levels are solved, the current level is min(N, n + 1), the gap is 0, nobody else changes |
| Progression.SetProgressIdempotent | internal/store/users.go:181-213 | setting the same level again changes no solved set |
| Progression.ReapplyCurrentLevel | internal/store/users.go:176-213 | re-applying the current level keeps the count, and keeps the set iff the gap is 0 |
| Progression.SolveKeepsGap | internal/store/progress.go:8-53 | solving an accessible level never widens anyone's gap |
| Progression.DeleteLevelKeepsGap | internal/store/levels.go:216-226 | deleting a level never widens anyone's gap |
| Stores.Store.CountSolved | internal/store/progress.go:24-33 | the row scan counts the distinct solved levels |
| Stores.Store.CurrentLevel | internal/store/progress.go:24-33 | one more than the number of solved levels |
| Stores.Store.CountRank | internal/store/progress.go:40-53 | the scan counts the levels at or below a position |
| Stores.Store.IsLevelAccessible | internal/store/progress.go:40-53 | for an existing level: true iff that level is on the player's list |
| Stores.Store.RecordSolved | internal/store/progress.go:8-16 | new state and result are those of the operation, constraints kept |
| Stores.Store.JoinLevel | internal/store/levels.go:35-44 | the left join yields one row per level, marked solved iff it is |
| Stores.Store.ListAccessibleLevels | internal/store/levels.go:22-56 | join, sort and limit produce the list that agrees with the gate |
| Stores.Store.LevelByID | internal/store/levels.go:72-92 | the level with this player's mark, or not found |
| Stores.Store.CreateLevel | internal/store/levels.go:182-193 | succeeds iff the position is free; the next id then holds position, title, description and flag as sent, other rows stay |
| Stores.Store.UpdateLevel | internal/store/levels.go:197-212 | succeeds iff the level exists and no other holds the position; its row then holds position, title, description and flag as sent, other rows stay |
| Stores.Store.DeleteLevel | internal/store/levels.go:216-226 | hints and progress of that level cascade, exactly its own tools are untied, hints and tools of other levels stay |
| OperationFacts.CreateUserEffect | internal/store/users.go:44-60 | a name is refused iff an account has it; a new account gets an id nobody had, is at level 1, no admin and without sessions, and changes nobody else |
| Stores.Store.EnsureAdmin | internal/store/users.go:66-84 | whenever it succeeds an admin exists |
| OperationFacts.SetUserRoleEffect | internal/store/users.go:165-174 | the set of admins gains or loses that one account; names, passwords, progress and sessions stay |
| Stores.Store.SetUserProgressToLevel | internal/store/users.go:181-213 | delete then ordered, limited insert equal the operation; an unknown account rolls back |
| Credentials.ResetPasswordEffect | internal/handlers/admin_users.go:102-132 | after a reset every session of the account is out, every other one stays, and exactly the passwords matching the new hash log the account in |
| Credentials.LogInIff | internal/handlers/login.go:28-74 | a login succeeds iff name and password are given, some account has the name and its hash matches, and the drawn token is unused; otherwise nothing changes |
| Credentials.LogInAdmits | internal/handlers/login.go:57-68 | the token of a login admits its account with its stored role until a second before 30 days are over |
| Stores.Store.DeleteUser | internal/store/users.go:230-239 | account, sessions and progress go together |
| Stores.Store.AdminUserByID | internal/store/users.go:146-161 | the account as its row says, at one more than its solved levels, or not found |
| Stores.Store.JoinProgress | internal/store/users.go:118-124 | the left join group of an account: its progress rows, or a single NULL |
| Stores.Store.CountColumn | internal/store/users.go:118-124 | COUNT of a column skips NULL, so an account without progress counts 0 |
| Stores.Store.ListUsers | internal/store/users.go:118-143 | every account once, by id, each described as its row says and equal to what AdminUserByID returns for it |
| Stores.Store.UserByUsername | internal/store/users.go:88-101 | the only account of that name, or not found and there is none |
| Stores.Store.UnlockedTools | internal/store/tools.go:29-55 | scan and sort return each unlocked tool once, by id, with the fields of its row |
| Stores.Store.IsToolFileUnlocked | internal/store/tools.go:63-77 | true iff some tool on the player's toolkit has that content |
| Toolkit.CreateToolEffect | internal/store/tools.go:152-163 | a tool is refused iff it names no existing level; a new one gets an unused id and joins exactly the toolkits of the players it opens for |
| Toolkit.UpdateToolEffect | internal/store/tools.go:167-181 | refused for an unknown id or a dangling level; otherwise that one tool moves on or off each toolkit and no other item changes |
| Toolkit.DeleteToolEffect | internal/store/tools.go:187-197 | that one tool leaves every toolkit and no other item changes |
| Stores.Store.HintsForLevel | internal/store/hints.go:21-43 | in any table: every hint of the level once, with its text, by number that never falls; with distinct numbers the one possible list |
| Stores.Store.ReplaceHints | internal/store/hints.go:49-77 | delete and indexed insert equal the operation; an unknown level rolls back |
| Stores.Store.CreateSession | internal/store/sessions.go:21-29 | the stored expiry is truncated; a used token or missing account fails |
| Stores.Store.RefreshSession | internal/store/sessions.go:52-60 | the expiry of an existing token changes; a missing token is not created |
| Sessions.DeleteSessionEffect | internal/store/sessions.go:33-38 | the token is not admitted any more, every other token is answered as before |
| Sessions.DeleteUserSessionsEffect | internal/store/sessions.go:43-48 | no token of the account is admitted any more, every other token is answered as before |
| Sessions.AdmittedHolds | internal/store/sessions.go:65-87 | a token is unknown iff no account holds it, and the account admitted is the holder with the role it has now |
| Toolkit.ToolViewsAgree | internal/store/tools.go:29-77 | a file may be downloaded iff a tool on the toolkit has it as content |
| Toolkit.UnlockedToolsAreToolkit | internal/store/tools.go:29-55 | the toolkit lists each unlocked tool once, by id, with the fields of its row |
| ToolRuns.DeleteLevelKeepsTools | migrations/000002_invert_tool_unlock.up.sql:6 | deleting a level shrinks nobody's toolkit, because the progress cascade and SET NULL act together |
| ToolRuns.SubmitKeepsTools | internal/handlers/submit.go:22-73 | a submission shrinks nobody's toolkit |
| ToolRuns.ToolsNeverRegress | internal/store/tools.go:29-55 | a player's toolkit shrinks along a run only if some request reloads the content, deletes a tool, ties one to a level the player has not solved, rewrites that player's progress or deletes that player |
| Hints.ReplaceThenRead | internal/store/hints.go:49-77 | afterwards the level's hints are numbered 1 to m, read back as exactly the given texts in order, and other levels read as before |
| Hints.ReplaceHintsKeepsValid | internal/store/hints.go:49-77 | replacing keeps every constraint and the numbering from 1 |
| Accounts.AccountDescribes | internal/store/users.go:146-161 | an account entry says what the row says, at one more than the number of solved levels |
| Accounts.AccountsInIdOrder | internal/store/users.go:118-143 | sorting by id and reading each account gives the complete list |
| Servers.Server.RequireLogin | internal/middleware/auth.go:36-77 | the middleware's statements do exactly what session admission says |
| Servers.Server.SubmitFlag | internal/handlers/submit.go:22-73 | lookup, gate, comparison and insert are one Submit step; an answer is judged against the stored flag and only a correct one is stored |
| Servers.Server.GetLevel | internal/handlers/levels.go:43-83 | the page opens iff the level is on the list, and shows the stored title and description and the solved mark |
| Servers.Server.Login | internal/handlers/login.go:28-74 | the guards and the session creation are one LogIn step |
| Servers.Server.AdminUpdateUser | internal/handlers/admin_users.go:36-97 | carried out iff the guards pass and the account exists; then exactly that account has the role given and stands at the level given |
| Servers.Server.AdminResetPassword | internal/handlers/admin_users.go:102-132 | after success the account has no session left |
| Servers.Server.AdminDeleteUser | internal/handlers/admin_users.go:136-158 | succeeds iff the account exists and is not the acting one, which always stays; the account then has no session and no solve left and nobody else loses a solve |
| Servers.Server.AdminRoutes | internal/middleware/auth.go:83-95 | without the stored admin role nothing changes; an acting admin is still an admin afterwards |
| Servers.Server.Handle | internal/handlers/routes.go:13-63 | every request, reads included, refines one step of the transition system, with its response code |
| System.ShownFilesDownload | internal/handlers/files.go:21-56 | a level's page, hints and files open for exactly the levels on the player's list, and every file name the page shows can be downloaded |
| Servers.Server.LoadSeed | cmd/seed/main.go:83-152 | the load succeeds iff the seed is loadable, and otherwise the database is unchanged |
| Servers.Server.InsertLevels | cmd/seed/main.go:83-152 | the first pass succeeds iff keys are nonempty and distinct and positions distinct, and its map resolves exactly the keys read |
| Servers.Server.InsertTools | cmd/seed/main.go:83-152 | the second pass succeeds iff every nonempty key names a level |
| Requests.Outsiders | internal/middleware/auth.go:36-62 | a token that enters as nobody gets 401 and at most loses its own expired session |
| Requests.PlayersOnly | internal/middleware/auth.go:83-95 | without the admin role every admin action answers 403 and changes nothing but the caller's expiry |
| Requests.ReadStep | internal/handlers/files.go:63-83 | reads change nothing but the reader's expiry; tool files open for exactly the contents of the reader's toolkit, admin pages for admins |
| Requests.NewLevelStep | internal/handlers/admin_levels.go:66-82 | creation succeeds iff the position is positive and free; page and verdicts then follow what was sent, nothing else changes |
| Requests.EditLevelStep | internal/handlers/admin_levels.go:85-108 | an edit succeeds iff the level exists and no other holds the position; page and verdicts then follow what was sent, nothing else changes |
| Requests.DropLevelStep | internal/handlers/admin_levels.go:111-125 | a deletion unlocks exactly the tools that named the level, and leaves other levels, hints, tools and solves alone |
| Requests.DeleteLevelSpares | internal/store/levels.go:216-226 | the cascades of one deletion, table by table and as players see them |
| Requests.EditHintsStep | internal/handlers/admin_hints.go:44-82 | afterwards the level's hints read back as the texts, numbered from 1, and all others as before |
| Requests.NewToolStep | internal/handlers/admin_tools.go:66-82 | creation succeeds iff no missing level is named; the tool then shows what was sent, for exactly the players it opens for |
| Requests.EditToolStep | internal/handlers/admin_tools.go:85-109 | the same for an edit of an existing tool, other tools stay |
| Requests.DropToolStep | internal/handlers/admin_tools.go:112-126 | exactly that tool goes, from the table and from every toolkit |
| AccountRequests.UpdateAccountEffect | internal/handlers/admin_users.go:54-96 | an update is carried out iff its guards pass and the account exists, and otherwise changes nothing |
| AccountRequests.UpdateUserStep | internal/handlers/admin_users.go:36-97 | afterwards the admins gained or lost exactly that account, its solved set is the first N - 1 levels and its level min(N, n + 1), and nobody else changed |
| AccountRequests.ResetPasswordStep | internal/handlers/admin_users.go:102-132 | one hash changes and exactly the sessions of that account end |
| AccountRequests.DropUserStep | internal/handlers/admin_users.go:136-158 | exactly that account, its sessions and its solves go |
| AccountRequests.RegisterStep | internal/handlers/register.go:35-73 | succeeds iff nobody has the name; the newcomer is a player at level 1, nobody else is touched |
| AccountRequests.BootstrapStep | cmd/server/main.go:45-63 | an admin is made iff there is none, and fails iff the name is then taken |
| AccountRequests.LoginStep | internal/handlers/login.go:28-74 | a login opens one session for 30 days on the account of that name, or changes nothing |
| AccountRequests.LogoutStep | internal/handlers/logout.go:12-22 | exactly that session is gone |
| AccountRequests.ReseedStep | cmd/seed/main.go:83-152 | a reload succeeds iff keys are given and distinct, positions distinct and every tool key names a level; otherwise nothing changes |
| AccountRequests.SeedShows | cmd/seed/main.go:83-152 | after a reload each level's page, verdicts and hints follow its seed |
| AccountRequests.SeedShowsKeyedTool | cmd/seed/main.go:83-152 | after a reload a tool with a key shows its seed to exactly those who solved the level carrying the key |
| AccountRequests.SeedShowsFreeTool | cmd/seed/main.go:83-152 | after a reload a tool without a key shows its seed to everybody |
| System.StepKeepsValid | migrations/000001_init_schema.up.sql:5-49 | every request of every kind keeps keys, UNIQUE constraints and references |
| Runs.StepGap | internal/store/levels.go:182-226 | one request leaves a gap at most the old one plus one for a placed level, and 0 when it registers, reloads or sets progress |
| Runs.DriftBound | internal/store/levels.go:182-226 | over every run a gap is at most the placements since the player's last reset |
| Runs.LinearHistory | internal/store/progress.go:35-39 | without placements since the last reset the claim of the comments holds at the end of the run |
| Runs.ReachableStates | internal/store/progress.go:24-53 | from the empty database every reachable state has current level in range, the drift bound and no dead end |
| Runs.DeletedStaysDeleted | internal/store/levels.go:182-226 | outside the seed loader a deleted level id never names a level again |
| Runs.StaleSubmit | internal/handlers/submit.go:42-70 | a solve recorded after any later requests either fails without effect or is of a level that existed all along |
| Runs.AdministerKeepsActor | internal/handlers/admin_users.go:54-77 | no admin request demotes or deletes the admin making it |
| Runs.AlwaysAnAdmin | internal/handlers/admin_users.go:36-158 | once an admin exists every later state has one |
| Runs.SolvingCounts | internal/handlers/submit.go:52-70 | each new correct submission raises the solved count by one and leaves levels and accounts alone |
| Runs.MaximalPlay | internal/handlers/submit.go:52-70 | new correct submissions can be continued exactly until their number is the number of levels left |
| Sessions.Durations | internal/auth/session.go:11-17 | sessions last 30 days and are renewed below 15, in nanoseconds |
| Sessions.AdmissionIff | internal/middleware/auth.go:36-77 | who a token admits, when it is refused and removed, and which expiry is stored afterwards, from the session table alone |
| SessionRuns.WindowAlongRun | internal/middleware/auth.go:55-71 | along every run the stored expiry is the last write plus 30 days to the second and at least 15 days past the last check |
| SessionRuns.ActiveStaysLoggedIn | internal/middleware/auth.go:55-71 | a request at most 15 days after the last admitted check, or after login, is never refused as expired |
| SessionRuns.ActiveStaysAdmitted | internal/middleware/auth.go:55-71 | over every run a token used at least every 15 days keeps admitting its account, unless logged out, reset or deleted |
| SessionRuns.IdleIsPutOut | internal/middleware/auth.go:55-62 | a request more than 30 days after the last admitted one is refused and leaves no session |
| SessionRuns.RefreshesAreRare | internal/store/sessions.go:52-60 | two writes of one expiry are more than 15 days less one second apart |
| SessionRuns.RemovedStaysRemoved | internal/store/sessions.go:33-60 | a removed token returns only by a login that draws it again |
| Interleaving.AloneIsWhole | internal/handlers/submit.go:22-73 | the separate statements run without interruption give the same database and response as the whole request |
| Interleaving.PlaySound | internal/handlers/submit.go:42-70 | in every quiet schedule what each submission in flight has read still counts |
| Interleaving.CommitsAreAccessible | internal/handlers/submit.go:42-70 | a solve committed by an interleaved submission is accessible at that very moment, adds one level to one player, and raises current by one iff it is new |
| Interleaving.SchedulesCreditRightly | internal/handlers/submit.go:42-70 | in every schedule a newly solved level was credited by a correct verdict of that player or by a whole request, and every verdict compares an answer that was sent with a flag the level had |
| Interleaving.WrongAnswersStoreNothing | internal/handlers/submit.go:64-72 | a wrong answer is told so and changes nothing |
| Interleaving.PrefixesStayPrefixes | internal/store/progress.go:40-53 | no quiet schedule widens a gap, so a prefix stays a prefix |
| Interleaving.CurrentRisesPerNewLevel | internal/store/progress.go:24-33 | over a schedule the current level rises by the number of distinct levels newly solved |
| Interleaving.NoRevival | internal/store/sessions.go:52-60 | a refresh in flight when its token is removed does not bring it back |
| Seed.ResolveMeans | cmd/seed/main.go:83-152 | a key resolves iff some level has it, and to that level's 1-based position |
| Seed.LoadTheorem | cmd/seed/main.go:83-152 | after loading, level i has id i and its hints numbered 1 to m in order, tool j id j, progress is empty, accounts and sessions stay, constraints hold |
| Seed.ToolPointsAtItsKey | cmd/seed/main.go:83-152 | each tool with a key is tied to the one level carrying it |
| Migration.Up | migrations/000002_invert_tool_unlock.up.sql:6-13 | the row-by-row update gives every tool a level that named it, or none if none did, and references hold |
| Migration.Down | migrations/000002_invert_tool_unlock.down.sql:5-11 | the row-by-row update gives every level a tool it unlocked, or none if there was none, and references hold |
| Migration.UpLinks | migrations/000002_invert_tool_unlock.up.sql:9-11 | up invents no link and leaves every linked tool linked |
| Migration.DownLinks | migrations/000002_invert_tool_unlock.down.sql:7-9 | down invents no link and leaves every linked level linked |
| Migration.UpKeepsContent | migrations/000002_invert_tool_unlock.up.sql:6-13 | levels and tools keep every other field |
| Migration.DownKeepsContent | migrations/000002_invert_tool_unlock.down.sql:5-11 | levels and tools keep every other field |
| Migration.UpDown | migrations/000002_invert_tool_unlock.down.sql:7-9 | up then down restores the database iff no two levels shared a tool |
| Migration.DownUp | migrations/000002_invert_tool_unlock.up.sql:9-11 | down then up restores the database iff no level was named by two tools |
| Files.SplitJoin | internal/files/files.go:71-102 | splitting a joined slash path gives its elements back |
| Files.WalkDir | internal/files/files.go:73-96 | the walk meets each regular file whose path has no dotted element exactly once, under its relative name |
| Files.List | internal/files/files.go:71-102 | strictly sorted, without repetition, and exactly the visible files; empty for a missing base |
| Files.LessIff | internal/files/files.go:71-102 | names are ordered character by character, a prefix first |
| Files.FileOpens | internal/files/files.go:29-64 | the slash path of a regular file in the tree is a valid path and opens to that same file |
| Files.OpensExactlyFiles | internal/files/files.go:29-64 | Open succeeds on exactly the slash paths of regular files inside the base; every other outcome is "not found", or the base is no directory |
| Files.ListedIffOpened | internal/files/files.go:29-102 | under a directory a name is listed iff it opens and no element starts with a dot |
| Files.EveryListedNameOpensIff | internal/files/files.go:71-102 | every listed name opens unless the base is itself a visible regular file |

## Left out

- HTTP decoding and encoding, path ids, CORS, logging, panic recovery and response texts: a handler is an outcome code and a state change.
- Bodies of read responses inside the transition system: a step gives a GET its response code; the contents of the level list, level page, toolkit, hints and accounts are store and handler results. `Own` stands for the routes that always succeed.
- Field length and character checks, the tool-type list and registration rules: one-branch guards; only order_index above 0, the role values and level at least 1 are kept.
- bcrypt, token generation and cookies: the password check is an arbitrary function, a drawn token is a parameter, cookie expiry is not modelled.
- Unexpected database failures: each statement succeeds or fails as its constraints say; a failed transaction changes nothing.
- The 64-bit bounds of ids, counters and order_index: integers are unbounded.
- NULL tool descriptions and solved_at: they carry no decision.
- Admin edits of the catalogue's order, and progress rewrites, between two statements of one running submission: the interleaved results hold for schedules without them; runs of whole requests have no such limit.
- Migration.Up: does not fix which matching level a tool gets when several match; the round trips hold for every choice.
- Files.List: trees without symlinks and with readable files; the order of the walk is left open since the result is sorted, and UTF-8 validity of names is taken for granted.
- `os.Root` and file streaming: library calls; a file route carries the directory tree it reads.
- Configuration, database opening, pragmas and golang-migrate.
