# Cricket scoreboard: a verified model of its client-side logic

This project models the logic in a browser application for cricket clubs. The application registers players, forms teams, schedules matches through a four-step wizard, groups matches and tournaments by status, and records deliveries. For each delivery it updates player statistics through three stored procedures of a hosted database. Everything the code decides on its own is modelled:

- the statistics rules of `updatePlayerStats`;
- the rows the client builds for balls, matches, innings, teams, tournaments and their link tables;
- the storage path of a player photo;
- the wizard's step counter and form record;
- the roster toggle and the submit guard of the team page;
- the player search and tab filter;
- the status groups of the match and tournament lists;
- the player form's validator, photo size limit and create/edit split.

The database and storage service appear as small classes in `Backend`:

- `Table`: an append-only table of inserted rows;
- `StatsStore`: a log of stored-procedure calls together with the totals they produce;
- `Bucket`: a map from storage paths to files.

Whatever the service replies is a parameter of the operation that calls it: the id of an inserted row or None for an error, a success flag, or the index of the call that throws.

`src/lib/supabase.ts` repeats, almost verbatim, the functions of `src/lib/supabase/players.ts`, `teams.ts`, `tournaments.ts` and `matches.ts`. For example, its `updatePlayerStats` at lines 335-372 matches `matches.ts:119-156` rule for rule. Each such operation is modelled once, and the table below cites one copy. The one real difference is its `createMatch`, which is modelled separately (see Findings).

The batsman is credited only for a scoring ball without extras (`matches.ts:122`): a dot ball, a wide, a no-ball, a bye or a leg-bye never credits the batsman.

Modules, one per source file:

- `Types`: the entities of `src/types/index.ts`.
- `PlayerStats`: the delta rules of one ball.
- `MatchesApi`, `TeamsApi`, `TournamentsApi`, `PlayersApi`: the data-access functions.
- `MatchWizard`: `useMatchForm`.
- `WizardSteps`: the two picker steps.
- `NewTeamPage`, `PlayersPage`, `MatchesPage`, `TournamentsPage`: the pages.
- `PlayerSchema`, `PlayerForm`: the player form.

Supporting modules:

- `Seqs`: filter and find, with their lemmas.
- `Strings`: JavaScript's `trim`, ASCII `toLowerCase`, `includes`, `split('.').pop()` and `parseInt`.

## Model

| member | source | states |
|---|---|---|
| PlayerStats.BatsmanRule | src/lib/supabase/matches.ts:121-130 | a batsman call is made iff runs > 0 and the ball has no extras; it is the first call, for the batsman, with the ball's runs, one ball, a four iff runs = 4 and a six iff runs = 6 |
| PlayerStats.BowlerRule | src/lib/supabase/matches.ts:132-142 | exactly one bowler call per ball, for the bowler: 0 balls for a wide or no-ball and 1 otherwise; 0 runs for a bye or leg-bye, else runs plus extras runs (0 without extras); one wicket iff there is a wicket that is not a run out |
| PlayerStats.DismissalRule | src/lib/supabase/matches.ts:144-149 | a dismissal call is made iff the player-out id is present and non-empty (JavaScript truthiness); it names that player and is the last call |
| PlayerStats.Issued | src/lib/supabase/matches.ts:120-155 | when the call at index k throws, exactly the k calls before it take effect; with no throw, all of them |
| PlayerStats.BallEffect | src/lib/supabase/matches.ts:119-156 | under an additive reading of the procedures, each of a player's eight counters after one ball equals the counter before plus exactly the amount the rules give, stated from the ball's own fields |
| MatchesApi.BallRowRoundTrip | src/lib/supabase/matches.ts:87-101 | the ball row keeps the ball number, player ids and runs; its extras read back to the ball's extras; its wicket columns are all undefined iff there is no wicket, and otherwise read back to its kind, player out and fielder; the stats calls recomputed from the row are the ones issued for the ball |
| MatchesApi.UpdatePlayerStats | src/lib/supabase/matches.ts:119-156 | the calls made are the planned ones up to the one that throws, in order; the totals are the old ones with those calls applied; the result is true iff every planned call was made |
| MatchesApi.IssuePlan | src/lib/supabase/matches.ts:120-155 | the calls are awaited one after another; a throw skips the rest, is caught and gives false; the calls made are exactly the planned ones before the throwing one; the store stays consistent, so its totals follow the calls made |
| MatchesApi.RecordBall | src/lib/supabase/matches.ts:85-117 | a failed insert writes nothing, makes no stats call and gives null; a successful one appends the ball row, then makes the stats calls, and returns the row whatever the stats calls do |
| MatchesApi.MatchRowOf | src/lib/supabase/matches.ts:33-43 | the match row takes the team ids from team1Id/team2Id and copies date, venue, overs and the status literal; the toss winner, batting-first and tournament ids are those of the optional objects |
| MatchesApi.LegacyMatchRowOf | src/lib/supabase.ts:185-211 | the copy in supabase.ts builds a row iff `teams` is present, taking the team ids from `teams.team1`/`teams.team2` |
| MatchesApi.CreateMatch | src/lib/supabase/matches.ts:29-55 | on success exactly the match row is appended and returned with its new id; on failure nothing is written and null is returned |
| MatchesApi.LegacyCreateMatch | src/lib/supabase.ts:185-211 | without `teams` the row cannot be built: nothing is written and null is returned; with it, the insert appends the row on success and nothing on failure |
| MatchesApi.InningsRowRoundTrip | src/lib/supabase/matches.ts:61-72 | the innings row holds the two team ids, and reading it back gives the innings again: totals, the four extras counters and the completed flag are copied verbatim |
| MatchesApi.CreateInnings | src/lib/supabase/matches.ts:57-83 | on success the innings row is appended and returned; on failure nothing is written and null is returned |
| TeamsApi.TeamRowRoles | src/lib/supabase/teams.ts:34-39 | each role id is present iff its role player is, and is that player's id; the roster has no influence on the row |
| TeamsApi.LinkRows | src/lib/supabase/teams.ts:48-51 | one link row per player, in order, carrying the new team id and that player's id |
| TeamsApi.LinkRowsAppend | src/lib/supabase/teams.ts:48-51 | the links of a concatenated roster are the concatenation of the links |
| TeamsApi.LinkRowsMembers | src/lib/supabase/teams.ts:47-51 | a (team, player) link is built iff the player id is in the roster |
| TeamsApi.CreateTeam | src/lib/supabase/teams.ts:29-67 | a failed team insert writes nothing and gives null; otherwise the team row is appended; the link batch is inserted only for a non-empty roster; a failed link insert gives null although the team row stays |
| TournamentsApi.TournamentRowCopies | src/lib/supabase/tournaments.ts:30-35 | the tournament row copies name, dates and status, and does not depend on the teams or matches |
| TournamentsApi.LinkRows | src/lib/supabase/tournaments.ts:43-46 | one link row per team, in order, carrying the new tournament id and that team's id |
| TournamentsApi.LinkRowsMembers | src/lib/supabase/tournaments.ts:42-46 | a (tournament, team) link is built iff the team id is among the participants |
| TournamentsApi.CreateTournament | src/lib/supabase/tournaments.ts:26-62 | a failed first insert writes nothing and gives null; otherwise the row is appended; the links are inserted only for a non-empty team list; a failed link insert gives null |
| PlayersApi.PhotoPath | src/lib/supabase/players.ts:60-62 | the path always starts with "player-photos/" and has something after it |
| PlayersApi.PhotoExtensionIsAfterLastDot | src/lib/supabase/players.ts:60 | the extension has no '.' and ends the file name, preceded by a '.' when shorter; it is the whole name iff the name has no '.' |
| PlayersApi.LastSegmentAfterSep | src/lib/supabase/players.ts:60-61 | the last '.'-separated piece of `x + "." + e` is e when e has no '.' |
| PlayersApi.PhotoPathDecodes | src/lib/supabase/players.ts:60-62 | the path is "player-photos/" + player id + "." + extension, and both parts can be read back from it |
| PlayersApi.PhotoPathSame | src/lib/supabase/players.ts:60-67 | two uploads target the same path iff they have the same player id and the same extension |
| PlayersApi.ApplyUpdate | src/lib/supabase/players.ts:39-56 | a partial update sets each field it carries and keeps every other one, including id and teams |
| PlayersApi.PhotoUpdateOnlyPhoto | src/lib/supabase/players.ts:76 | the photo update changes the photo URL and nothing else |
| PlayersApi.PlayerTable.Create | src/lib/supabase/players.ts:21-37 | a successful insert stores the player under its new id and returns it; a failed one changes nothing and gives null |
| PlayersApi.PlayerTable.Update | src/lib/supabase/players.ts:39-56 | the update succeeds iff the service accepts it and the id exists; it then stores and returns the updated record; otherwise nothing changes and null is returned |
| PlayersApi.UploadPlayerPhoto | src/lib/supabase/players.ts:58-85 | a failed upload changes nothing and gives null; a successful one stores the file at the photo path (replacing any file there), sets only the player's photo URL when that update succeeds, and returns the public URL either way |
| Backend.Bucket.Upload | src/lib/supabase/players.ts:64-67 | an upsert: the file at the path is replaced and every other path is kept |
| Strings.TrimEmptyIffAllSpace | src/pages/Players.tsx:37 | a string trims to "" iff all its characters are JavaScript white space |
| Strings.LastSegmentIsLongestSuffix | src/lib/supabase/players.ts:60 | `split(sep).pop()` is the longest suffix without the separator |
| Strings.ParseIntDecimal | src/pages/match/hooks/useMatchForm.ts:71 | `parseInt` of the decimal text of a natural number gives that number |
| MatchWizard.UpdateFieldOnlyNamed | src/pages/match/hooks/useMatchForm.ts:26-33 | an update sets the named field to the value and leaves every other field as it was; a name that is not a field changes nothing |
| MatchWizard.UpdatesCommute | src/pages/match/hooks/useMatchForm.ts:26-33 | `{ ...prev, [name]: value }` on two different names gives the same record in either order |
| MatchWizard.LastWriteWins | src/pages/match/hooks/useMatchForm.ts:26-33 | two changes to the same name leave the value of the second |
| MatchWizard.StepBounds | src/pages/match/hooks/useMatchForm.ts:46-50 | from a step in 1..4, next and previous stay in 1..4 and move by at most one |
| MatchWizard.NextStepAdvances | src/pages/match/hooks/useMatchForm.ts:35-47 | next advances iff the step is below 4 and unguarded; step 1 stays iff a team id is empty, step 3 stays iff the toss winner or the batting-first id is empty; step 2 always advances and step 4 stays |
| MatchWizard.SameTeamPassesStepOne | src/pages/match/hooks/useMatchForm.ts:36-39 | choosing the same team twice passes step 1 |
| MatchWizard.TeamById | src/pages/match/hooks/useMatchForm.ts:57-60 | the lookup finds a team with the id, from the list, iff one exists |
| MatchWizard.TournamentById | src/pages/match/hooks/useMatchForm.ts:61 | the lookup finds a tournament with the id, from the list, iff one exists |
| MatchWizard.SubmitDraft | src/pages/match/hooks/useMatchForm.ts:57-66 | the submit stops early iff team 1 or team 2 is not among the loaded teams |
| MatchWizard.SubmitDraftContents | src/pages/match/hooks/useMatchForm.ts:68-78 | a submitted match carries the chosen team ids, `parseInt` of the overs text and status Upcoming; toss winner, batting first and tournament are the chosen ones when they resolve and undefined otherwise |
| MatchWizard.LegacyCreateMatchRejectsWizard | src/lib/supabase.ts:193-194 | no submission of the wizard yields a row from the createMatch of supabase.ts |
| MatchWizard.WizardMatchRow | src/lib/supabase/matches.ts:37-38 | with the createMatch of matches.ts, a submission yields a row with the chosen team ids, the parsed overs and status "Upcoming" |
| MatchWizard.MatchForm.constructor | src/pages/match/hooks/useMatchForm.ts:12-24 | the wizard starts at step 1, not loading, with overs "20", today's date and every other field empty |
| MatchWizard.MatchForm.NextStep | src/pages/match/hooks/useMatchForm.ts:35-47 | the step becomes the guarded, clamped next step; the form is unchanged |
| MatchWizard.MatchForm.PrevStep | src/pages/match/hooks/useMatchForm.ts:49-51 | the step decreases, clamped at 1; the form is unchanged |
| MatchWizard.MatchForm.HandleInputChange | src/pages/match/hooks/useMatchForm.ts:26-29 | only the named field changes |
| MatchWizard.MatchForm.HandleSelectChange | src/pages/match/hooks/useMatchForm.ts:31-33 | only the named field changes |
| MatchWizard.MatchForm.HandleSubmit | src/pages/match/hooks/useMatchForm.ts:53-90 | as written, with the imported createMatch of supabase.ts: no path writes a row or returns a match; loading ends false on every path |
| MatchWizard.MatchForm.HandleSubmitCorrected | src/pages/match/hooks/useMatchForm.ts:53-90 | with the createMatch of matches.ts: an unresolved team writes nothing; otherwise the match row of the draft is inserted on success and nothing on failure; loading ends false on every path |
| WizardSteps.TeamOptions | src/pages/match/components/TeamSelectionStep.tsx:27-35 | every team is offered, in order, and an option is disabled iff its id equals the excluded id |
| WizardSteps.TeamPickWritesOneField | src/pages/match/components/TeamSelectionStep.tsx:19-56 | choosing a team writes only team1Id (team2Id); an enabled option never sets team 1 equal to team 2 or team 2 equal to team 1 |
| WizardSteps.SelectedTeamsExact | src/pages/match/components/TossDetailsStep.tsx:10-12 | the toss step offers exactly the teams whose id is team1Id or team2Id, in their order and multiplicity |
| WizardSteps.TossPickWritesOneField | src/pages/match/components/TossDetailsStep.tsx:23-52 | a toss choice writes only tossWinnerId (battingFirstId), and any offered team is one of the two chosen teams |
| WizardSteps.TossWinnerPickResolves | src/pages/match/components/TossDetailsStep.tsx:25 | an offered team chosen as toss winner is the toss winner of the submitted match |
| WizardSteps.BattingFirstPickResolves | src/pages/match/components/TossDetailsStep.tsx:44 | an offered team chosen to bat first is the batting-first side of the submitted match |
| NewTeamPage.ToggleRemoves | src/pages/NewTeam.tsx:105-106 | toggling a selected id removes every entry with that id; the others keep their order and multiplicity |
| NewTeamPage.ToggleAppends | src/pages/NewTeam.tsx:107-108 | toggling an unselected player appends it at the end |
| NewTeamPage.ToggleKeepsUniqueIds | src/pages/NewTeam.tsx:103-111 | from a selection without duplicate ids, toggling never creates one |
| NewTeamPage.WithoutIdUnique | src/pages/NewTeam.tsx:106 | removing an id keeps ids unique |
| NewTeamPage.ToggleTwiceAbsent | src/pages/NewTeam.tsx:103-111 | toggling an unselected player twice restores the selection exactly |
| NewTeamPage.ToggleTwicePresent | src/pages/NewTeam.tsx:103-111 | toggling a selected player twice moves it to the end |
| NewTeamPage.TeamFormIssues | src/pages/NewTeam.tsx:50-55 | the team form is rejected iff the name has fewer than 2 characters |
| NewTeamPage.PlayerById | src/pages/NewTeam.tsx:121-123 | a role player is found (from the given list, with that id) iff the id is set and some player has it |
| NewTeamPage.RolesFromFullList | src/pages/NewTeam.tsx:121-132 | the role players come from the full player list whatever the selection is; the roster is the selection |
| NewTeamPage.NewTeamForm.TogglePlayer | src/pages/NewTeam.tsx:103-111 | the selection becomes its toggle |
| NewTeamPage.NewTeamForm.OnSubmit | src/pages/NewTeam.tsx:113-145 | an empty selection is refused before anything is written; otherwise createTeam runs on the built team, and submitting ends false |
| PlayersPage.SearchResultsExact | src/pages/Players.tsx:40-43 | the search keeps exactly the players whose lower-cased name contains the lower-cased query, in order and multiplicity |
| PlayersPage.EffectChoice | src/pages/Players.tsx:36-46 | a white-space-only query lets the tab decide; otherwise the search alone decides, whatever the tab |
| PlayersPage.QueryNotTrimmed | src/pages/Players.tsx:37-42 | the query is not trimmed before matching: a query starting with white space finds only players whose name holds white space |
| PlayersPage.TabAllAndBatsman | src/pages/Players.tsx:50-53 | tab "all" gives every player; tab "batsman" exactly those with bowling type None, in order |
| PlayersPage.NotAnyBowlingType | src/pages/Players.tsx:54-59 | "Spinner", "Pacer" and "All-rounder" are not bowling types |
| PlayersPage.BowlerTabsEmpty | src/pages/Players.tsx:48-61 | the "bowler" and "all-rounder" tabs give nobody; exactly the four known tabs select a list |
| PlayersPage.PlayersView.constructor | src/pages/Players.tsx:13-17 | the page starts with no players, an empty query and tab "all" |
| PlayersPage.PlayersView.FilterPlayersByType | src/pages/Players.tsx:48-61 | the tab is always recorded; a known tab replaces the list, an unknown one leaves it |
| PlayersPage.PlayersView.SearchEffect | src/pages/Players.tsx:36-46 | the list becomes the effect's result for the query and tab |
| PlayersPage.PlayersView.OnSearchChange | src/pages/Players.tsx:90 | typing stores the query; the effect reruns iff the query differs from the stored one |
| PlayersPage.PlayersView.OnTabChange | src/pages/Players.tsx:94 | picking a tab filters by it, and the effect runs again only if the tab changed |
| PlayersPage.PlayersView.Load | src/pages/Players.tsx:19-34 | both lists become the loaded players, then the effect runs |
| MatchesPage.GroupsExact | src/pages/Matches.tsx:31-35 | live, upcoming and completed (Completed or Super Over) hold exactly the matches of those statuses with their multiplicity; they are pairwise disjoint, and a match without status is in none |
| MatchesPage.GroupsKeepOrder | src/pages/Matches.tsx:32-34 | each group is a subsequence of the list |
| MatchesPage.GroupSizes | src/pages/Matches.tsx:31-35 | the three groups and the status-less matches together account for every match exactly once |
| MatchesPage.CardBodies | src/pages/Matches.tsx:159-181 | a live card shows the batting side, runs and wickets of the last innings, and only when there is an innings; a completed card shows the result iff there is one; other cards show neither |
| TournamentsPage.GroupsExact | src/pages/Tournaments.tsx:32-36 | ongoing, upcoming and completed hold exactly the tournaments of those statuses, are disjoint and order-preserving; Live or no status is in none |
| TournamentsPage.LiveTournamentHidden | src/pages/Tournaments.tsx:32-36 | a Live tournament, which the type allows, is listed in no group |
| TournamentsPage.StatusBadge | src/pages/Tournaments.tsx:127-138 | a badge is shown iff the status is Ongoing, Upcoming or Completed, labelled with the status literal |
| TournamentsPage.TeamCountIsLinkCount | src/pages/Tournaments.tsx:179 | the displayed team count is the length of the team list, 0 without one, and equals the number of link rows createTournament writes |
| PlayerSchema.ParseHand | src/components/player/form/schema.ts:6-7 | an accepted hand literal denotes the hand it names |
| PlayerSchema.ParseBowlingType | src/components/player/form/schema.ts:8-16 | an accepted bowling-type literal denotes the type it names |
| PlayerSchema.HandEnumIsPlayerUnion | src/components/player/form/schema.ts:6-7 | the hand enum accepts exactly the literals of the Player type's union, each reading back as itself |
| PlayerSchema.BowlingTypeEnumIsPlayerUnion | src/components/player/form/schema.ts:8-16 | the bowling-type enum accepts exactly the seven literals of the Player type's union |
| PlayerSchema.Validate | src/components/player/form/schema.ts:4-17 | a form is accepted iff the name has at least 2 characters and all three enums are valid; each failing field and no other is reported; accepted values are the typed forms of the inputs |
| PlayerSchema.ValidateRoundTrip | src/components/player/form/schema.ts:4-17 | printing typed values with a valid name and validating gives them back |
| PlayerSchema.ValidateThenPrint | src/components/player/form/schema.ts:4-17 | validating then printing gives back the raw form |
| PlayerSchema.DefaultsNeedOnlyAName | src/components/player/form/usePlayerForm.ts:22-27 | the default values fail only on the name; with a valid name they give right-handed batting and bowling and bowling type None |
| PlayerForm.PhotoLimit | src/components/player/form/usePlayerForm.ts:62 | the limit is 5242880 bytes, inclusive |
| PlayerForm.FormUpdate | src/components/player/form/usePlayerForm.ts:75-80 | the edit update does not touch the photo |
| PlayerForm.NewPlayerOf | src/components/player/form/usePlayerForm.ts:94-100 | a new player is created with no photo |
| PlayerForm.SavedFields | src/components/player/form/usePlayerForm.ts:74-100 | either save gives the record the form's four fields; an update keeps id, photo and teams |
| PlayerForm.PlayerFormState.HandlePhotoChange | src/components/player/form/usePlayerForm.ts:59-69 | no file, or a file over the limit, changes nothing; an accepted file sets both the file and its preview |
| PlayerForm.PlayerFormState.OnSubmit | src/components/player/form/usePlayerForm.ts:71-120 | it updates iff in edit mode with a loaded player, else creates with no photo; it uploads iff a record came back and a photo is chosen, to the photo path of the saved id; submitting ends false |

## Left out

- Network I/O: every request to the database or storage service is a parameter carrying its reply. Timing and concurrency are not modelled.
- The stored procedures `update_batsman_stats`, `update_bowler_stats` and `update_dismissal` are not in the repository. Their arguments are modelled; `PlayerStats.ApplyCall` is an additive reading of them, assumed rather than taken from code.
- `supabase.rpc` reports errors in its reply instead of throwing. The code ignores those replies, so only exceptions end the sequence, and `throwsAt` models them.
- Toasts, `console.error` and `navigate` are left out: they are side effects with no logic.
- Dates: `format(new Date(), 'yyyy-MM-dd')` becomes a `today` parameter. `new Date(matchDetails.date)` is not modelled, and the match keeps the date text.
- `URL.createObjectURL` becomes the `previewUrl` parameter.
- `toLowerCase` is modelled on ASCII letters only. Full Unicode case mapping is not modelled.
- String lengths count characters, not UTF-16 code units, in `min(2)` and elsewhere.
- `parseInt` is modelled with unbounded integers. Its floating-point precision beyond 2^53 is not modelled, and NaN is None.
- React scheduling: each effect runs right after the state change that triggers it. A setter is an assignment; one given the value already stored triggers no effect.
- The edit-mode load of usePlayerForm (lines 30-57) is not modelled. It calls `getPlayerById`, which `src/lib/supabase.ts` does not export. The loaded player is a constructor parameter of `PlayerForm.PlayerFormState`. That admits states the code as written cannot reach: without `getPlayerById` no player is ever loaded, so every submission takes the create branch, which is `PlayerForm.PlayerFormState.OnSubmit` with `loaded` None.
- `NewTeamPage.TeamDataOf`: the logo is the preview URL (`logoPreview || undefined`). The chosen logo file is never uploaded, and the model keeps it that way.
- The list loads (`getPlayers`, `getTeams`, `getMatches`, `getTournaments`) are not modelled: they are queries with no client logic.
- `MatchWizard.UpdateField`: a change event whose name is not a form field adds a new key to the record in the source. The model's record has only the eight fields, so such an update changes nothing.
- Display-only components are not modelled: src/App.tsx, the index, setup, new-match and edit/new-player pages, the player components, ConfirmationStep.tsx and MatchDetailsStep.tsx.
- src/lib/supabase/client.ts, src/config/index.ts and the option table in src/components/player/form/constants.ts are configuration, not logic.
- No cricket rules beyond the statistics calls: the code has none for over completion, innings closure or results.

## Findings

| source | as written | input that shows it | evidently intended | confidence | as-written member | corrected member |
|---|---|---|---|---|---|---|
| src/lib/supabase.ts:193-194 | the wizard imports `createMatch` from "@/lib/supabase", which resolves to src/lib/supabase.ts. This copy reads `match.teams.team1.id`, but useMatchForm.ts:68-78 passes only `team1Id`/`team2Id`. The read throws, the exception is caught and null is returned, so no match is ever created | any submission that resolves both teams, e.g. team1Id "a" and team2Id "b" with teams a and b loaded | take the ids from `team1Id`/`team2Id`, as src/lib/supabase/matches.ts:37-38 does | not executed | MatchWizard.LegacyCreateMatchRejectsWizard | MatchWizard.WizardMatchRow |
