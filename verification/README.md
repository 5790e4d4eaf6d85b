# ocStorage2git replay core in Dafny

`ConvertStorage.py` copies the history of a 1C:Enterprise configuration store
into a git repository. A run goes like this:

- It reads the checkpoint: the number of the last store version it replayed, or 0 when none was saved.
- It asks the 1C designer for a store report starting at the next version.
- It has a data processor turn that report into a JSON history document.
- It walks the document's version numbers in ascending order. For each version it:
  - updates the information base to that version,
  - dumps the configuration into the work tree,
  - commits it under the store user's name,
  - saves the version as the new checkpoint.

This project models that pure, sequential core and proves what it promises.

- `Checkpoint`: the checkpoint file, an optional integer read as 0 when absent.
- `Settings`: the configuration record the program reads (`onec`, `info_base`, `storage`, `git`).
- `Commands`: the command-line builders for the report, history, update and dump runs, and the common part shared by all four.
  - Each builder is the join of template words with single spaces.
  - That join reproduces the source's empty fields and its trailing spaces exactly.
  - The store password fragment is modelled as the source writes it, a bare word. A separate corrected report builder shows the evidently intended switch (see Findings).
- `History`: the history document as its key/record pairs in document order.
  - The keys are parsed with `int`, the numbers are sorted, and each record is looked up again by `str` of its number.
- `Composer`: how one git commit is composed.
  - The author string comes from the first matching row of `storage.authors`, or from the default e-mail.
  - The commit message holds the header line, the added objects section and the changed objects section.
  - The commit's date is the record's date and time text, kept apart from the message.
- `Replay`: `scan_history` and the `__main__` sequence as a run.
  - Every external program and every git commit becomes an action in a trace.
  - The set `faults` says which of those steps raise. A step that raises ends the run, as an uncaught exception does.
  - The outcome of a run is its trace, the checkpoint store it leaves, and a status.
- `Decimal`, `Text`, `Sequences`, `Wrappers`: decimal text of integers, the substring and word-join facts behind the command lines, sorting, and `Option`.
- `Scenario`: one worked run. The document lists versions 5, 3 and 4, and the commit of version 5 raises. Versions 3 and 4 are replayed in full, and the checkpoint stays at 4.

What the code does, and so what the model does:

- The loop does not skip versions at or below the checkpoint.
  - Resumption comes only from the report's `-NBegin last+1` argument.
  - Any version the history document lists is replayed again (`ScanIgnoresCheckpoint`).
- Commit-message sections are not cut to any length. Every object appears in full (`MessageDecodes`).
- The exit code of an external program is never checked. Only an exception stops the loop.
- There is no push, tag, lock, limit on the run's total duration or log collection in the code, so the model has none. Each external program has its own time-out, which raises like any other failure of that step.
- Under Windows authentication the three authentication fields become empty words. The common part then keeps their separating spaces, which is why it contains `"/DisableStartupDialogs   /L"`.
  - The model proves that the credentials do not reach the command line.
  - It does not prove that the text `/N` occurs nowhere, since a path or connection string may contain it.

## Model

| member | source | states |
|---|---|---|
| Checkpoint.Load | ConvertStorage.py:47-56 | With no checkpoint saved the last version reads as 0; otherwise it reads as exactly the number stored |
| Checkpoint.Save | ConvertStorage.py:276-279 | After saving `n` the checkpoint reads back as `n`, and a checkpoint now exists |
| Checkpoint.LastSaveWins | ConvertStorage.py:276-279 | A save overwrites the file: of two saves only the second is visible |
| Commands.AuthFlagsFor | ConvertStorage.py:64-71 | The three authentication fragments are all empty exactly under Windows authentication; otherwise they are `/WA-`, `/N` followed by the user and `/P` followed by the password |
| Commands.BaseCommandLine | ConvertStorage.py:73-84 | The common part opens with the executable path and the start type, each followed by one space, and closes with `-NoTruncate` and two spaces |
| Commands.Command | ConvertStorage.py:117-117 | A command is the common part, one space, then the operation's parameter words, and it equals the join of all those words |
| Commands.PasswordAuthInCommandLine | ConvertStorage.py:68-80 | With a login and password, the common part contains `/WA- /DisableStartupDialogs /N<user> /P<password>` as one run of text |
| Commands.WindowsAuthIgnoresCredentials | ConvertStorage.py:64-67 | Under Windows authentication the common part does not depend on the configured user or password, and the authentication fields are empty around `/DisableStartupDialogs` |
| Commands.StoragePasswordArgAsWritten | ConvertStorage.py:101-104 | The store password fragment the source builds is the password itself, whichever branch of the emptiness test is taken |
| Commands.BarePasswordIsNotASwitch | ConvertStorage.py:101-115 | For the password `secret` the fragment is the bare word `secret`, which is not a switch of the command line |
| Commands.StoragePasswordWords | ConvertStorage.py:101-104 | Corrected fragment: its words join to nothing exactly when the password is empty; otherwise they are the repository-password switch followed by the password |
| Commands.ReportPasswordIsBare | ConvertStorage.py:101-115 | The report command carries the store password as a bare word right after the store user and before `/ConfigurationRepositoryReport`, with no switch in front |
| Commands.UpdatePasswordIsBare | ConvertStorage.py:192-203 | The update command carries the store password as a bare word right after the store user and before `/ConfigurationRepositoryUpdateCfg` |
| Commands.CorrectedReportCommand | ConvertStorage.py:97-118 | The corrected report command begins as the report command does: the designer common part, a space, then `/ConfigurationRepositoryF` |
| Commands.CorrectedReportPassesPassword | ConvertStorage.py:101-115 | With the correction, a non-empty store password follows `/ConfigurationRepositoryP` right after the store user |
| Commands.ReportCommand | ConvertStorage.py:97-118 | The report command is the designer common part followed by the store parameters, and it ends with `-NBegin`, the decimal text of `last+1` and two spaces |
| Commands.ReportStartsAfterLastVersion | ConvertStorage.py:106-115 | The number at the end of the report command reads back as `last_version + 1` |
| Commands.HistoryCommand | ConvertStorage.py:135-147 | The history command is the enterprise common part followed by `/Execute`, and it ends with the quoted `/C"report;history"` argument and two spaces |
| Commands.UpdateCommand | ConvertStorage.py:188-206 | The update command is the designer common part followed by the store parameters, and it ends with `-v`, the version's decimal text and two spaces |
| Commands.UpdateNamesVersion | ConvertStorage.py:197-203 | The number at the end of the update command reads back as exactly the version asked for |
| Commands.DumpCommand | ConvertStorage.py:217-224 | The dump command is the designer common part followed by `/DumpConfigToFiles`, and it ends with the source directory and one space |
| Decimal.ParseShowInt | ConvertStorage.py:177-181 | `int(str(v)) == v` for every integer, so the number a key is parsed to finds the key again |
| Decimal.ShowIntCanonical | ConvertStorage.py:181-181 | `str` of an integer is a canonical key, and different integers have different keys |
| History.Lookup | ConvertStorage.py:181-181 | `history_data[key]` finds nothing exactly when no pair has that key; what it finds is paired with the key in the document |
| History.LookupFindsEntry | ConvertStorage.py:181-181 | In a document without repeated keys, a lookup yields a record exactly when that key/record pair is in the document |
| History.ParseKeys | ConvertStorage.py:176-177 | The keys all parse exactly when each key is an integer; the numbers are in key order; otherwise the result names the first key `int` rejects |
| History.VersionOrder | ConvertStorage.py:176-179 | The visiting order is an ascending rearrangement of the parsed keys, and a rejected key stops everything |
| History.CanonicalOrder | ConvertStorage.py:176-181 | For distinct canonical keys the visiting order is strictly ascending and holds every key's number once, and each number finds its record again |
| History.KeyOrderIrrelevant | ConvertStorage.py:176-181 | For distinct keys that all parse as integers, rearranging the pairs of the document changes neither the visiting order nor any lookup |
| Sequences.Sort | ConvertStorage.py:179-179 | The sorted versions are ascending and a rearrangement of the input |
| Sequences.SortUnique | ConvertStorage.py:179-179 | Any ascending rearrangement of the versions is the one `Sort` yields, so the order does not depend on the sorting algorithm |
| Composer.MatchingEmail | ConvertStorage.py:233-235 | No e-mail is found exactly when no row's user equals the author; a found e-mail belongs to the first row whose user equals the author |
| Composer.GitAuthor | ConvertStorage.py:227-237 | The author is the store user unchanged, followed by the e-mail of the first exactly matching row in angle brackets, or the default e-mail when no row matches |
| Composer.BuildSection | ConvertStorage.py:262-264 | Accumulating ` name\n` for each object after the title gives the section holding every object in list order |
| Composer.ObjectLinesAppend | ConvertStorage.py:262-264 | Appending an object to the list appends exactly its line ` name\n` to the section text |
| Composer.ObjectLinesRoundTrip | ConvertStorage.py:258-264 | Object names without newlines are read back from their lines exactly, in order |
| Composer.SectionRoundTrip | ConvertStorage.py:258-264 | A section read back under its title yields its object list unchanged |
| Composer.CommitMessage | ConvertStorage.py:267-268 | The message begins with `storage ver:` and the version's decimal text, and ends with a newline |
| Composer.MessageDecodes | ConvertStorage.py:258-268 | The message splits into header and blank line, the whole added section, one space, the whole changed section and a final newline; nothing is dropped or cut |
| Composer.CommitMessageDecodes | ConvertStorage.py:254-268 | The message of a version gives back its header and both of its object lists |
| Composer.PlanFor | ConvertStorage.py:254-270 | The commit is authored by the resolved git author (first exactly matching row, or the default e-mail), its message starts with the version's header line and a blank line, and its date text is `CommitDate`, a space and `CommitTime` |
| Replay.CommandOf | ConvertStorage.py:121-126 | Every action but a commit or a save runs a 1C command line, as the runs at lines 123, 152, 213 and 245 do; a commit and a save run none. Which command each action runs is stated by ReportActionStart, HistoryActionCommand, UpdateActionVersion and DumpActionCommand |
| Replay.PlanOf | ConvertStorage.py:254-270 | Only a commit has a commit plan: it is authored after its record's store user, its message is headed by `storage ver:` and its version, and its date text is the record's date and time |
| Replay.ReplayVersion | ConvertStorage.py:181-185 | A version completes exactly when its record is found and none of its steps raises, and then it starts update, dump, commit, save and saves that version. Otherwise it saves nothing and leaves the checkpoint alone: a missing record is looked up first and starts nothing, whatever steps would raise, a raising update starts only the update, a raising dump only the update and dump, a raising commit only the update, dump and commit. The step reported is the first of its steps that raises |
| Replay.VersionBlockKinds | ConvertStorage.py:181-185 | One version starts at most one update, dump, commit and save, each of that version, and exactly one of each when it completes |
| Replay.VersionBlockOrder | ConvertStorage.py:181-185 | Within one version, whether it completes or stops, every dump directly follows the update, every commit the dump and every save the commit; the commit carries the version's record |
| Replay.Replay | ConvertStorage.py:180-185 | The `for` loop over the visiting order: an empty order completes with no action, only a non-empty order can stop, and a completed loop starts exactly four actions per version (see also ReplaySaves, ReplayCheckpoint, ReplayKinds, ReplayOrdered) |
| Replay.ReplaySaves | ConvertStorage.py:180-185 | The saved versions are a leading part of the visiting order; they are all of it exactly when the loop completes; a stop is caused by the first unsaved version |
| Replay.ReplayCheckpoint | ConvertStorage.py:180-185 | After the loop the checkpoint is the last version saved, or the starting one when none was saved, so a failure never moves it |
| Replay.ReplayCompletedCheckpoint | ConvertStorage.py:180-185 | A completed loop over a non-empty order leaves its last version as the checkpoint |
| Replay.ReplayKinds | ConvertStorage.py:180-185 | Updates, dumps and commits go through the same versions as the saves, or one version further when the loop stopped, so none is skipped or repeated |
| Replay.ReplayOrdered | ConvertStorage.py:180-185 | In the whole loop, stopped version included, every dump directly follows its update, every commit its dump and every save its commit, and every commit carries the record looked up for it |
| Replay.ReplayEndsAtFault | ConvertStorage.py:180-185 | A loop stopped by a raising step ends with the action of that step: no later step of that version or any later version is started. A loop stopped by a missing record ends with the previous version's save, or with no action at all |
| Replay.ReplayIgnoresStore | ConvertStorage.py:175-185 | The loop's actions and outcome do not depend on the checkpoint it starts from |
| Replay.ReplaySeesOnlyLookups | ConvertStorage.py:181-181 | Two documents with the same lookups give the same loop |
| Replay.ScanHistory | ConvertStorage.py:172-185 | A key `int` rejects stops the scan before any action, naming the key; an empty document completes with no action and the checkpoint unchanged |
| Replay.ScanStopsOnlyOnFaults | ConvertStorage.py:176-185 | For distinct canonical keys only a raising step can stop the scan |
| Replay.ScanSavesAscending | ConvertStorage.py:176-185 | For distinct canonical keys the saved checkpoints are strictly ascending, and each is the number of a key of the document |
| Replay.ScanWithoutFaults | ConvertStorage.py:176-185 | With no step raising, the scan of distinct canonical keys completes, saving every version of the visiting order |
| Replay.ScanSavesEveryKey | ConvertStorage.py:176-185 | For distinct canonical keys and no step raising, every key's number is saved, and exactly one save is made per key |
| Replay.FinalCheckpointIsMaximum | ConvertStorage.py:176-185 | After a completed scan of a non-empty document the checkpoint is the largest version number among its keys |
| Replay.ScanIgnoresCheckpoint | ConvertStorage.py:172-185 | The scan does not filter by the checkpoint: its actions are the same whatever checkpoint it starts from |
| Replay.ScanKeyOrderIrrelevant | ConvertStorage.py:176-181 | Whatever order the document lists its numeric keys in, the scan is the same |
| Replay.ScanCheckpoint | ConvertStorage.py:180-185 | The scan's checkpoint is the store saved with the last version it saved, or the store unchanged |
| Replay.ScanOrdered | ConvertStorage.py:180-185 | The scan's actions keep the update, dump, commit, save order of each version, stopped version included, and each commit carries its version's record |
| Replay.RunProgram | ConvertStorage.py:282-296 | A run starts with the report from the loaded checkpoint. If the report raises, that is the only action and the checkpoint is untouched. Otherwise the history conversion follows; if it raises, or its file cannot be read, the run ends there with the checkpoint untouched. Otherwise the scan of the document it produced follows, with its actions and outcome |
| Replay.ProgramCheckpoint | ConvertStorage.py:282-296 | Whatever fails, the checkpoint after a run is the last version it saved, or the one it started with |
| Replay.ProgramOrdered | ConvertStorage.py:282-296 | Whatever fails, every dump of a run directly follows its update, every commit its dump and every save its commit |
| Replay.ProgramFits | ConvertStorage.py:282-296 | Every commit of a run commits the record the history document holds for its version |
| Replay.ProgramCommitPlans | ConvertStorage.py:227-296 | Every commit of a run carries the record the document holds for its version, and its plan is the one for that record, authored after that record's store user |
| Replay.ProgramEndsAtFault | ConvertStorage.py:282-296 | A run stopped by a raising step stops on a step that raises, and its last action is the one that step started |
| Replay.ReportActionStart | ConvertStorage.py:121-126 | The report action runs the `DESIGNER` common part followed by `/ConfigurationRepositoryF`, and its command line asks for the versions from `last + 1` on |
| Replay.HistoryActionCommand | ConvertStorage.py:148-153 | The history action runs the `ENTERPRISE` common part followed by `/Execute`, and its command line ends with the quoted report and history argument and two spaces |
| Replay.UpdateActionVersion | ConvertStorage.py:209-214 | The update action runs the `DESIGNER` common part followed by `/ConfigurationRepositoryF`, and its command line names exactly the version it updates to |
| Replay.DumpActionCommand | ConvertStorage.py:241-246 | The dump action runs the `DESIGNER` common part followed by `/DumpConfigToFiles`, ends with the git source directory and one space, and is the same for every version |
| Replay.ProgramResumes | ConvertStorage.py:282-296 | The next run's report starts after the version this run saved last, or after where this run started if it saved nothing |
| Scenario.ThreeKeysOrder | ConvertStorage.py:176-179 | The keys "5", "3", "4" are visited as 3, 4, 5 |
| Scenario.ThreeKeysLookups | ConvertStorage.py:181-181 | Each of 3, 4 and 5 finds its own record through `str` |
| Scenario.CommitOfLastVersionRaises | ConvertStorage.py:180-185 | If the commit of 5 raises, versions 3 and 4 are replayed in full, version 5 is updated and dumped, and the checkpoint stays at 4 |

## Left out

- Running external programs (`subprocess.run` with its time limits) is not modelled. Each run is an action in the trace. Whether it raises is the `faults` parameter. Its exit code is never read, as in the source.
- GitPython's index and commit are left out. A commit is an action that carries the version's record, and `PlanFor` gives its author, message and time-stamp text.
- `datetime.strptime` is left out: the commit date stays the text it is parsed from. A date it rejects is one way the commit step of a version raises.
- Reading and writing JSON files, and the UTF-8 byte-order mark, are left out.
  - The history document is a value.
  - An unreadable history file is the `None` argument of `RunProgram`.
  - A failing checkpoint write is not modelled.
- `init_configuration`, `argparse` and missing configuration keys are left out. The configuration is a complete record.
- Python `int` accepts spellings the model rejects: surrounding whitespace, underscores and non-ASCII digits. Such keys are malformed in the model. The model accepts an optional sign followed by ASCII digits.
- A document with a repeated key stands for no JSON object. `json.load` keeps one pair per key, the last one, so the source visits such a version once with the last record. The model's list would visit it once per repetition, with the first record. `ScanHistory` and `RunProgram` still accept such a list, but every lemma about lookups, the visiting order or the saves assumes distinct keys (`IsDict`).
- Which steps raise is given per version number (`faults` is a set of steps). The source visits a version twice when two keys parse to the same number (`5` and `+5`). The model cannot say that the first visit's commit succeeds and the second's raises, as git's "nothing to commit" would. Every lemma about the visiting order assumes distinct canonical keys, so none depends on this.
- The history file is read twice, once in `__main__` and once in `scan_history`. The first result is discarded, so the model reads it once.
- Section truncation, push and tagging, a limit on the whole run's duration, locking and log aggregation are not in the code, so they are not modelled.
- Commands.WindowsAuthIgnoresCredentials: states that the credentials do not reach the common part and that its authentication fields are empty. It does not state that `/N` or `/P` occurs nowhere, because the paths and the connection string are free text.

## Findings

| source | as written | input that shows it | evidently intended | confidence | as-written member | corrected member |
|---|---|---|---|---|---|---|
| ConvertStorage.py:101-115 | Both branches of the emptiness test give the store password itself, so a non-empty password is put into the report and update commands as a bare word with no switch in front (the same code is at lines 192-195) | password `secret`: the fragment is `secret`, not a switch | a non-empty password goes after the repository-password switch, `/ConfigurationRepositoryP secret` | not executed | Commands.ReportPasswordIsBare | Commands.CorrectedReportPassesPassword |
