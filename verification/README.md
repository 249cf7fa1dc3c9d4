# GKE pod shell: configuration, selection and command dispatch

This project models the interactive pod shell of `go-gcp`. The shell reads a
file of cluster profiles (`env|project|cluster|zone|namespace`, one per line).
The user picks an environment by number and confirms. The shell then fetches
the cluster's credentials and serves a numbered menu of `kubectl` commands
until the user exits.

The repository holds two copies of this engine: the `shell` package, with five
registered commands, and the `shell/podshell` package, with ten. Their loaders,
pod listing, selection and session flow are the same code. One model serves
both, and the registration table is chosen by an `Edition`.

Modules:

- `Text` models the parts of Go's `strings` package the engine relies on: `TrimSpace` with `unicode.IsSpace`, `HasPrefix`, `Split` on one character, the first token of `Fields`, and `ToLower`.
- `Config` models `readConfigurations`. It builds a per-line verdict (`ParseLine`), a scan over the verdicts (`Scan`), and the load (`LoadContents`, `Load`). The scanner loop itself is the method `ReadConfigurations`, proved equal to `Load`.
- `Selection` is the 1-based range check shared by every numbered prompt.
- `Pods` models the output parsing of `getPods` (the method `GetPods`, proved against `PodNames`) and `selectPod`.
- `Commands` holds the kinds of command, the two registration tables, the map built from a table (`Registry`), the menu's display order, and what running an action yields.
- `Controller` holds the class `AccessPods`. Its constructor is `NewAccessPods`. `RegisterCommands` fills the `commands` map in a loop. `Execute` runs one session and is proved equal to the function `Session`.

## Model

| member | source | states |
|---|---|---|
| Text.TrimSpace | shell/podshell/utils.go:92 | The result has no white space at either end. It is empty exactly when the line is all white space, and an already-trimmed string is unchanged. |
| Text.TrimSpaceKeepsInfix | shell/podshell/utils.go:92 | The result is the text that starts right after the leading white space and is followed only by white space, so `TrimSpace` removes the white space at both ends and nothing else. |
| Text.Split | shell/podshell/utils.go:99 | Gives one more piece than the text has separators, and no piece contains the separator. |
| Text.JoinSplit | shell/podshell/utils.go:99 | Joining the pieces of a split with the separator restores the line, so no character is lost or reordered. |
| Text.SplitJoin | shell/podshell/utils.go:99 | Splitting a join of separator-free pieces gives the same pieces back, so the five fields of a line are exactly the pieces between its bar separators. |
| Text.FirstField | shell/podshell/utils.go:34-36 | Gives nothing exactly for an all-white-space line. |
| Text.FirstFieldIsToken | shell/podshell/utils.go:34-36 | For any other line, the field is the non-empty, space-free run that starts right after the leading white space and ends at a space or the end of the line. |
| Text.ToLower | shell/podshell/execute.go:57 | Keeps the length and lower-cases each character on its own. |
| Config.ParseLine | shell/podshell/utils.go:92-118 | A line is skipped iff it is blank or a `#` comment after trimming. Otherwise it is rejected with `InvalidFormat(trimmed line)` iff it does not split into five pieces. Any other rejection is `MissingFields` on the trimmed line, and an accepted profile has all five fields non-empty. |
| Config.FivePieceLine | shell/podshell/utils.go:99-117 | A kept line with five pieces is accepted iff all five trimmed pieces are non-empty, and then its profile is those trimmed pieces in order. Otherwise it is rejected with `MissingFields` on the trimmed line. The `shell` package has the same code at shell/utils.go:80-96. |
| Config.WellFormedFileLoads | shell/podshell/utils.go:91-128 | A readable file whose kept lines all have five non-empty trimmed pieces, with at least one kept line, loads exactly one profile per kept line, in file order. The same file with a read error fails with the read error. The `shell` package has the same code at shell/utils.go:72-109. |
| Config.Scan | shell/podshell/utils.go:91-119 | A successful scan yields only complete profiles, no more than there are lines. A failed scan carries a line error. |
| Config.LoadContents | shell/podshell/utils.go:114-128 | A successful load means the read did not fail and the result is non-empty, with every field of every profile non-empty. |
| Config.ReadConfigurations | shell/podshell/utils.go:79-129 | The scanner loop, with its early returns for a bad line and the checks after the loop, returns exactly `Load(disk, path)`. A missing file gives `OpenFailed`. The `shell` package has the same code at shell/utils.go:63-110. |
| Config.SkippedLineIgnored | shell/podshell/utils.go:92-96 | Inserting a blank or comment line anywhere changes neither the load's result nor its error, nor the kept lines. The `shell` package has the same code at shell/utils.go:74-78. |
| Config.ScanIgnoresSkipped | shell/podshell/utils.go:94-96 | A skipped verdict anywhere among the verdicts leaves the scan unchanged. |
| Config.FirstRejectedLineFailsLoad | shell/podshell/utils.go:99-117 | The first malformed or incomplete line decides the load: it fails with that line's error, which names the trimmed line, whatever follows. The `shell` package has the same code at shell/utils.go:80-96. |
| Config.ScanStopsAtFirstRejected | shell/podshell/utils.go:100-117 | The scan returns the error of the first rejected verdict. |
| Config.ScanSucceedsIff | shell/podshell/utils.go:91-119 | The scan succeeds iff no verdict is a rejection. |
| Config.AnyRejectedLineFailsLoad | shell/podshell/utils.go:99-117 | One bad line anywhere fails the whole load with a line error, so there is never a partial result. |
| Config.ParsedLine | shell/podshell/utils.go:99-111 | An accepted line is a kept line with exactly five pieces, and its profile is the trimmed pieces in order. |
| Config.ScanShape | shell/podshell/utils.go:105-118 | A successful scan yields exactly the profiles of the kept lines, in order. |
| Config.LoadSuccessShape | shell/podshell/utils.go:105-128 | A successful load has one profile per kept line, in file order. Each field is the trimmed piece at its position (env, project, cluster, zone, namespace), and the list is non-empty. The `shell` package has the same code at shell/utils.go:85-109. |
| Config.NoConfigurationsIff | shell/podshell/utils.go:125-127 | A readable file fails with "no valid configurations found" iff it holds only blank and comment lines. The `shell` package has the same code at shell/utils.go:105-107. |
| Config.KeptLinesCons | shell/podshell/utils.go:92-96 | A line adds its trimmed text to the kept lines unless it is skipped. |
| Config.KeptLinesIgnoresSkipped | shell/podshell/utils.go:94-96 | A skipped line is not among the kept lines. |
| Config.KeptLinesOfRejected | shell/podshell/utils.go:99-117 | A failing scan has at least one kept line, so an empty-file error never hides a line error. |
| Selection.Pick | shell/podshell/execute.go:35-39 | A number picks an item iff it is in `[1, len]`, and then the item is the one at index `number-1`. |
| Selection.PickCoversItems | shell/podshell/execute.go:35-39 | Every item, and only an item, is picked by some number. |
| Selection.PickRejects | shell/podshell/execute.go:35-38 | A non-numeric answer (read as 0) never picks, and an empty list never picks. |
| Pods.Present | shell/podshell/utils.go:35-37 | The present fields, no more than there are fields. |
| Pods.PodNames | shell/podshell/utils.go:30-39 | No more names than lines. |
| Pods.PresentAppend | shell/podshell/utils.go:33-39 | The present values of two blocks of fields follow one another. |
| Pods.PresentFromFields | shell/podshell/utils.go:35-37 | Every collected name is the first field of some line. |
| Pods.FirstFieldsAppend | shell/podshell/utils.go:33-34 | The fields of consecutive blocks of lines follow one another. |
| Pods.PodNamesSingle | shell/podshell/utils.go:34-37 | A single line gives its first field if it has one, and nothing otherwise. |
| Pods.PodNamesAreTokens | shell/podshell/utils.go:34-37 | Every name is a non-empty token without white space. |
| Pods.PodNamesAppend | shell/podshell/utils.go:33-39 | The names of consecutive blocks of output lines follow one another in output order. |
| Pods.LineContribution | shell/podshell/utils.go:34-37 | A blank line contributes nothing anywhere in the output. Any other line contributes exactly its first token, at its place. |
| Pods.GetPods | shell/podshell/utils.go:22-40 | A failed listing command gives an error. Otherwise the result is exactly `PodNames` of the output's lines, that is the first token of each non-blank line, in order. The `shell` package has the same code at shell/utils.go:19-35. |
| Pods.ScanNames | shell/podshell/utils.go:30-39 | The scanner loop, which appends the first field of each line that has one, returns exactly `PodNames` of the lines. The `shell` package has the same code at shell/utils.go:25-34. |
| Pods.SelectPod | shell/podshell/utils.go:57-60 | Succeeds iff `1 <= choice <= len(pods)`, and then returns `pods[choice-1]`. Otherwise it gives the invalid-selection error. The `shell` package has the same code at shell/utils.go:47-50. |
| Pods.SelectPodReachesEveryPod | shell/podshell/utils.go:57-60 | Every listed pod, and only a listed pod, can be selected. Choice 0 (a non-number) always errors, and an empty list always errors. |
| Commands.Table | shell/podshell/commands.go:26-81 | The `shell/podshell` table has ten rows, the `shell` table (shell/commands.go:23-53) five; both end with Exit, "Exit program", whose action ends the process, and every earlier row runs a handler. |
| Commands.RegistryKeys | shell/podshell/commands.go:84-93 | The map built from a table has exactly the table's kinds as keys, and each entry's kind equals its key. |
| Commands.RegistryEntry | shell/podshell/commands.go:87-93 | With distinct kinds, each row's kind maps to a command with that row's kind, description and action. |
| Commands.RegistrySize | shell/podshell/commands.go:87 | With distinct kinds, the map has one entry per row. |
| Commands.TablesDistinct | shell/podshell/commands.go:31-80 | No kind is listed twice in either table. |
| Commands.ShellRegistry | shell/commands.go:55-63 | The `shell` key set is exactly {ShowPods, ConnectPod, ShowLogs, DescribePod, Exit}. There are 5 entries, each with its listed description. |
| Commands.PodShellRegistry | shell/podshell/commands.go:84-93 | The `shell/podshell` map has all ten kinds as keys and 10 entries, each with its listed description. |
| Commands.CommandOrderRegistered | shell/podshell/execute.go:73-79 | In both editions, every kind in the menu's display order has a registered command. |
| Commands.Invoke | shell/podshell/commands.go:79 | Running an action terminates iff it is the Exit action. A handler yields success iff its external call succeeds. |
| Commands.ExitActionTerminates | shell/podshell/commands.go:79 | In both editions the Exit entry's action ends the process with status 0, and no other entry's action ends it. The `shell` package has the same code at shell/commands.go:51. |
| Commands.Menu | shell/podshell/execute.go:87-91 | The menu has no more lines than the order has kinds. |
| Commands.MenuFollowsOrder | shell/execute.go:69-74 | When every kind in the order is registered, menu line i is numbered i+1 and shows the i-th kind's description, whatever the map's iteration order. |
| Commands.EditionMenu | shell/podshell/execute.go:87-91 | Both editions show the same five numbered lines, from "List all pods" to "Exit program". |
| Controller.ExitStatus | shell/podshell/execute.go:15-68 | Status 1 iff the load failed, the environment number was invalid, the connection failed, or an action exited with 1. No status iff the session is still waiting for input. |
| Controller.ConfirmedIff | shell/podshell/execute.go:57-60 | The confirmation passes iff the answer is `y` or `Y`. The `shell` package has the same code at shell/execute.go:48-51. |
| Controller.LoopEvents | shell/podshell/execute.go:84-115 | Every command the loop runs is a registered kind from the display order, run on the selected namespace, with the result of its own action. The loop stops at the first Exit or terminating action, and ends without one only when the input runs out. |
| Controller.WellEndedCons | shell/podshell/execute.go:84-109 | A non-final loop event placed before a well-ended run of the loop leaves it well ended. |
| Controller.OnlyDisplayedKindsRun | shell/podshell/execute.go:97-103 | Whatever is registered, only the five kinds of the display order ever run. |
| Controller.LoadFailureIsFatal | shell/podshell/execute.go:15-19 | A load error ends the session with status 1, with no prompt effect and no connection. The `shell` package has the same code at shell/execute.go:13-17. |
| Controller.InvalidEnvironmentIsFatal | shell/podshell/execute.go:35-38 | An environment number outside `[1, len(configs)]` ends the session with status 1. It is not asked again, and the later answers do not matter. The `shell` package has the same code at shell/execute.go:29-32. |
| Controller.DeclineCancels | shell/podshell/execute.go:57-60 | Any answer other than `y` or `Y` cancels with status 0 and never connects. The `shell` package has the same code at shell/execute.go:48-51. |
| Controller.ConnectFailureIsFatal | shell/podshell/execute.go:65-68 | A failed connection ends the session with status 1, after the one connection attempt and before any command. The `shell` package has the same code at shell/execute.go:54-57. |
| Controller.SelectedEnvironmentServes | shell/podshell/execute.go:39-115 | After confirmation and a successful connection, the session connects to `configs[choice-1]`. Every command it runs afterwards is run on that profile's namespace. The `shell` package has the same code at shell/execute.go:34-94. |
| Controller.ConnectedLoop | shell/podshell/execute.go:65-115 | The connection comes first, and every later event is a loop event on the selected namespace. |
| Controller.InvalidCommandReprompts | shell/podshell/execute.go:97-100 | A command number outside `[1, len(commandOrder)]` runs nothing and prompts again. The `shell` package has the same code at shell/execute.go:80-83. |
| Controller.HandlerRunsAndContinues | shell/podshell/execute.go:103-109 | A valid number runs the handler of `commandOrder[choice-1]` on the selected namespace. A handler error is recorded and the loop continues. The `shell` package has the same code at shell/execute.go:85-90. |
| Controller.ExitEndsSession | shell/podshell/execute.go:103-113 | Choosing Exit (number 5) ends the process with status 0, and nothing runs after it. The `shell` package has the same code at shell/execute.go:85-93. |
| Controller.RegisteredLoopNeverReturns | shell/podshell/execute.go:111-113 | With either registry, the loop ends only by exiting with status 0 or by running out of input. The `return` after Exit is never reached, because Exit's action has already ended the process. |
| Controller.PodShellExtrasUnreachable | shell/podshell/execute.go:95-100 | The `shell/podshell` map has 10 entries, and the prompt announces 1 to 10. Numbers 6 to 10 are still rejected, and the five extra commands never run. |
| Controller.AccessPods.constructor | shell/podshell/commands.go:12-19 | Keeps the given file path unchanged and holds the edition's registered commands. The `shell` package has the same code at shell/commands.go:9-17. |
| Controller.AccessPods.RegisterCommands | shell/podshell/commands.go:84-93 | Rebuilds the map from empty by registering the table's rows in order. The new map does not depend on the old one, so registering twice gives the same map. The `shell` package has the same code at shell/commands.go:55-63. |
| Controller.AccessPods.Execute | shell/podshell/execute.go:12-116 | The staged flow and the command loop return exactly the outcome and events of `Session` on the same inputs. The lemmas above state what that means. The `shell` package has the same code at shell/execute.go:11-95. |

## Left out

- External commands are parameters: `gcloud container clusters get-credentials` and `kubectl get pods`. The handlers' external calls (`listPods`, `connectToPodShell`, `showPodLogs`, `describePod`, `showPodEnv`, `adjustPodCPU`, `adjustPodMemory`, `scaleDeployment`, `portForward`) are too. Each becomes a success flag per call, or the captured output for the pod listing. The handlers' own logic is not part of this model.
- `connectToGKE` and `connectToPod` are not modelled beyond their success flag.
- All printing is left out: environment and pod listings, the selected-profile display, error messages, ANSI colours. The menu's content is modelled as `Menu`, but not its output.
- `fmt.Scan` tokenising is left out. Numbers reach the model already parsed, with a non-number as 0, which is what `fmt.Scan` leaves in the variable. The confirmation answer arrives as a single token.
- The file system is a map from path to the scanner's lines plus a read-failure flag. `os.Open` errors other than a missing path, `defer file.Close()` and the 64 KiB line limit of `bufio.Scanner` are only represented by that flag.
- Pod output lines come from splitting on `'\n'`, not from `bufio.ScanLines`. For output whose lines fit the scanner's buffer this gives the same names, because a trailing `'\r'` and a final empty line are white space to `Fields`.
- Pods.GetPods: does not model the 64 KiB token limit of `bufio.Scanner`. At an output line longer than that, the source's loop stops without an error (it never checks `scanner.Err()`) and returns only the names before that line; the model returns the names of every line.
- Text.ToLower: only ASCII letters are lower-cased. No other character lower-cases to `y`, so the confirmation check is exact.
- `os.Exit` is not a process effect. Each exit becomes an `Outcome`, and `ExitStatus` gives the status it leads to.
- At end of input the Go loop reads 0 forever and prompts forever. The model stops with `InputExhausted` when the scripted steps run out, and that outcome has no exit status.
- `shell/podshell/types.go:6-13` declares only six command kinds, yet the podshell registration table uses ten. The model uses the ten-kind enumeration that the table implies. The `shell` package's own types file is not part of this model.
- The `DBConfig` type, the cobra command-line scaffolding in `cmd/`, and handler internals such as the resource-patch JSON are not part of this model.
