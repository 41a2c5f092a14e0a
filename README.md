# ssh-github gateway: a Dafny model of its decision logic

The gateway (`main.go`) is an SSH server that lets in any client whose public key is one of the
keys a GitHub account publishes at `https://github.com/<user>.keys`. It then runs one
configured entrypoint program (default `/bin/bash`) on a pseudo-terminal for that session.
This project models the gateway's decisions. The SSH, HTTP, file-system and PTY libraries
behind them are treated as opaque.

- `GoStrings` (`gostrings.dfy`): `strings.Split` with a one-character separator, and `strings.Join`.
- `Config` (`config.dfy`): the package-level settings read from the environment, `getenv` with
  its default fallback, and `toBool`.
- `Decimal` (`decimal.dfy`): `strconv.ParseUint(s, 10, 32)` as the handler uses it, and the
  `uint32(...)` conversion.
- `Authorization` (`authorization.dfy`): the `PublicKeyHandler` callback. It is a method with the
  source's early-return loop, proved against an existential specification.
- `KeyResolver` (`keyresolver.dfy`): the line loop of `fetchGithubKeys`, as a method. It builds
  one entry per line of the fetched body.
- `HostKeys` (`hostkeys.dfy`): `fetchHostSigners`, as a method with the source's loop, `continue`
  and early returns. It is proved against a recursive specification, `LoadPaths`.
- `Session` (`session.dfy`): `sshHandler` as a pure function from its inputs to the ordered
  trace of actions it takes: write, `Exit(1)`, `return`, set credential, append `TERM=`, spawn,
  panic.
- `Winsize` (`winsize.dfy`): the record `setWinsize` passes to the `TIOCSWINSZ` ioctl.

Abstract parts:
- Public keys, private-key file contents, signers and errors are type parameters.
- `ssh.ParseAuthorizedKey`, `ioutil.ReadFile`, `gossh.ParsePrivateKey` and `ssh.KeysEqual` are
  function-typed parameters.
- A line that does not parse leaves a nil key, modelled as `None`. `KeysEqual` with a nil key is
  taken to be false, so such an entry never matches.
- The `os.Stat` outcome and whether `pty.Start` fails are inputs of the handler.

The model follows the code in the places where it behaves differently from what a careful
gateway of this kind would do:
- **Identity enforcement.** A gateway enforcing identity equality would reject a mismatched
  user during the handshake, so the session would never start. In the code, the key callback
  ignores the claimed user. The check happens in `sshHandler`, and after `Exit(1)` execution
  falls through (see Findings).
- **Partial host identities.** A strict loader would return no signers at all on a failure.
  `fetchHostSigners` returns the signers loaded so far together with the error; `main` then
  exits on the error. It tests and splits the global `HostKeyFile`, not its `hostKeyFile`
  parameter.
- **Terminal size.** The handler never reads the PTY request's window itself. It applies only
  what arrives on the library's resize channel; what the library sends on it is outside the model.
- **Child environment.** The child's environment is exactly `["TERM=<term>"]`. `cmd.Env` starts
  nil, so one append makes it a one-entry list. That list replaces the inherited environment.

## Model

| member | source | states |
|---|---|---|
| `GoStrings.Split` | main.go:46 | splitting yields one more segment than there are separators, and no segment contains the separator |
| `GoStrings.JoinSplit` | main.go:46-47 | nothing is dropped: joining the segments with the separator gives back the input |
| `GoStrings.SplitJoin` | main.go:138 | splitting a join of separator-free segments gives back exactly those segments, so the split is one-to-one |
| `Config.Getenv` | main.go:55-62 | the result is the variable's value when it is set and non-empty; when it is unset or empty, the result is the default |
| `Config.GetenvEmpty` | main.go:55-62 | `getenv` returns "" exactly when both the variable and the default are empty |
| `Config.ToBool` | main.go:64-66 | true exactly for the four characters t, r, u, e in that order: case matters and nothing else is true |
| `Config.CheckGithubUserExactTrue` | main.go:64-66 | identity enforcement is on exactly when CHECK_GITHUB_USER is the exact string "true"; the default "false" and every other spelling leave it off |
| `Config.LoadSettings` | main.go:22-31 | the port and the entrypoint are never empty, because they have defaults |
| `Config.EmptyEnvironmentDefaults` | main.go:22-31 | with nothing set: enforcement off, no account, no host-key files, port 2222, entrypoint /bin/bash, no identifiers |
| `Decimal.ParseUint` | main.go:89 | an accepted identifier is a non-empty digit string, and its value is below 2^bitSize |
| `Decimal.ParseUintAccepts` | main.go:89-97 | parsing succeeds exactly on non-empty strings of the digits 0-9 whose value fits in bitSize bits |
| `Decimal.ParseUintFormat` | main.go:94 | every value that fits parses back from its decimal spelling |
| `Decimal.ParseUintRejectsSignsAndEmpty` | main.go:89-92 | the empty string and a leading sign (`+` or `-`) are errors |
| `Decimal.ParseUintLimit` | main.go:94-97 | the decimal spelling of 2^32-1 parses to 4294967295; the spelling of 2^32 is an error |
| `Decimal.Uint32` | main.go:100 | the conversion result is below 2^32 and is congruent to its argument modulo 2^32 |
| `Decimal.Uint32OfParsed` | main.go:100 | with bitSize 32 the `uint32` conversion of a parsed identifier is the identifier itself |
| `Authorization.PublicKeyHandler` | main.go:190-197 | the callback accepts exactly when some allowed entry is `KeysEqual` to the presented key |
| `Authorization.EmptyRejects` | main.go:191-196 | an empty allowed list rejects every key |
| `Authorization.AcceptsAppend` | main.go:191-196 | accepting against a concatenated list is accepting against either part |
| `Authorization.AcceptsPermutation` | main.go:191-196 | reordering the allowed list (any list with the same multiset) does not change the answer |
| `Authorization.UnparsableEntriesInert` | main.go:190-197 | matching against the full list equals matching against its parsed keys alone, so nil entries are inert |
| `KeyResolver.FetchGithubKeys` | main.go:46-50 | one entry per `\n`-separated line, in order, each the line's parse result, including failed parses; the length is the number of newlines plus one |
| `KeyResolver.AcceptsSomeLine` | main.go:46-50 | the resulting list accepts a key exactly when some line of the listing parses to a key equal to it |
| `KeyResolver.TrailingNewlineEntry` | main.go:46-49 | a listing ending in a newline gets one final entry, the parse of the empty line; the other entries are those of the listing without the newline |
| `HostKeys.FetchHostSigners` | main.go:133-157 | the result is the load of the global's ':'-segments, and the parameter is not used; an empty global gives no signers and no error |
| `HostKeys.LoadPathsMeaning` | main.go:138-156 | signers are those of the first non-empty paths, in path order; no error exactly when every non-empty path was read and parsed; an error is the read or parse failure of the next non-empty path, returned with the signers gathered before it |
| `HostKeys.EmptySegmentsSkipped` | main.go:139-141 | empty segments change nothing: loading the segments equals loading the non-empty ones |
| `HostKeys.NoPathsNoSigners` | main.go:134-136 | the early return on an empty `HostKeyFile` agrees with the loop: a list of separators only loads nothing and reports no error |
| `Session.ValidSshEntrypoint` | main.go:126-131 | only an `IsNotExist` stat result makes the entrypoint invalid; a found file and any other stat error leave it valid |
| `Session.HandlerTrace` | main.go:73-124 | every run of the handler ends with `return`, `Exit(1)`, a spawn or a panic |
| `Session.BuildCommandMeaning` | main.go:87-101 | command set-up is abandoned exactly when both identifiers are set and one fails to parse; otherwise the command runs the entrypoint, with the credential (uid, gid) equal to the parsed identifiers when both are set and no credential otherwise |
| `Session.AfterChecksCases` | main.go:87-123 | after the checks the handler does, by cases: nothing but `return` on an identifier parse failure; otherwise the credential step (when both identifiers are set), then either "No PTY requested." and `Exit(1)`, or `TERM=` and a spawn or a panic |
| `Session.OnlyOutcomeEnds` | main.go:73-124 | the trace is the checks' messages and exits, the set-up steps, then one final action; nothing before it spawns, returns or panics |
| `Session.SpawnConditions` | main.go:87-110 | a process is spawned exactly when a PTY was requested, the identifiers do not abandon the session and the start succeeds; the identity and entrypoint checks play no part |
| `Session.SpawnedCommand` | main.go:103-110 | at most one spawn, and it is the last action; it runs the entrypoint with environment exactly `TERM=<requested term>` and the configured credential |
| `Session.EarlyReturn` | main.go:88-97 | the handler returns early exactly on an identifier parse failure; nothing follows the two checks then (no credential, no PTY check, no process) |
| `Session.NoPtyRefused` | main.go:120-123 | without a PTY nothing is spawned; once past set-up, the handler ends by writing "No PTY requested." and calling `Exit(1)` |
| `Session.ExitFallsThrough` | main.go:75-87 | `Exit(1)` does not stop the handler: after the identity and entrypoint messages, the trace continues exactly as for an accepted user with a valid entrypoint |
| `Session.MissingEntrypointOnly` | main.go:81-85 | only a "does not exist" stat result produces "Invalid SSH Entrypoint", right after the identity check; any other stat error lets the session through |
| `Session.RejectedUserStillSpawns` | main.go:75-107 | with enforcement on, account "bob", user "alice" and a PTY, the handler writes the rejection, exits, and still spawns /bin/bash |
| `Session.MissingEntrypointReachesStart` | main.go:81-109 | a missing entrypoint with a PTY: after the message and `Exit(1)` the handler still appends `TERM=xterm` and calls `pty.Start` on the missing path, which fails, so it panics and spawns nothing |
| `Session.ExitEndsSession` | main.go:75-85 | in the corrected handler an exit ends the session: a trace with `Exit(1)` spawns nothing and ends with the exit; a rejected user or missing entrypoint never gets a process; accepted sessions are unchanged |
| `Session.NoExitUnlessRefused` | main.go:103-123 | with both checks passed, the only `Exit(1)` is the refusal of a PTY-less session, and it ends the trace |
| `Session.XtermSession` | main.go:103-107 | default settings and an "xterm" PTY: append `TERM=xterm`, then spawn /bin/bash with that one-entry environment and no credential |
| `Winsize.Uint16` | main.go:70 | the `uint16` conversion is below 2^16 and congruent to its argument modulo 2^16 |
| `Winsize.WinsizeRecord` | main.go:70 | both dimensions of the record are below 2^16 |
| `Winsize.RecordInRange` | main.go:69-70 | 16-bit dimensions arrive unchanged, height (rows) first, then width (columns), then two zero pixel sizes |
| `Winsize.RecordEqualIffCongruent` | main.go:70 | two requests give the same record exactly when their widths and heights agree modulo 2^16 |

## Left out

- The HTTP request and body read of `fetchGithubKeys` (main.go:34-44), with their error returns, are network I/O. The body is an input string.
- `ioutil.ReadFile` (main.go:144) and `os.Stat` (main.go:127) are file-system I/O. They are an abstract function and a three-way stat outcome.
- `ssh.ParseAuthorizedKey`, `gossh.ParsePrivateKey` and `ssh.KeysEqual` are library code whose source is not part of this model. They are abstract parameters. `KeysEqual` with a nil key is assumed to be false.
- `pty.Start` (main.go:107) is process creation. Its failure is a `startFails` input, and the `panic` is a `Panic` action.
- `startFails` does not depend on the stat outcome. A start on a path that stat reported missing normally fails, but the file can appear between the stat and the start; leaving the two independent models that race. The lemmas about a missing entrypoint therefore state what happens for each start outcome.
- The resize goroutine and both `io.Copy` calls (main.go:111-119) are concurrency and byte streaming, and they are not modelled. For the same reason the PTY request carries only its terminal name.
- The `TIOCSWINSZ` system call (main.go:69) is an OS call. Only the record it receives is modelled.
- Logging (main.go:74, 76, 82, 143) has no effect on the decisions.
- `main` (main.go:159-201) is wiring and process lifecycle: the start-up checks with `os.Exit`, server construction, `IdleTimeout` and `ListenAndServe`.
- Go's fixed-width arithmetic appears only in the conversions `uint32(...)` and `uint16(...)`, which are modelled as explicit reductions.

## Findings

| source | as written | input that shows it | evidently intended | confidence | as-written member | corrected member |
|---|---|---|---|---|---|---|
| main.go:75-78 | after writing "Unrecognized user" and calling `s.Exit(1)`, the handler does not return: it goes on to build the command and, with a PTY, spawns the entrypoint (the entrypoint check at lines 81-85 also falls through, but there `pty.Start` normally fails on the missing path and the handler panics) | CHECK_GITHUB_USER=true, GITHUB_USER=bob, claimed user alice, PTY "xterm", no identifiers | return after `Exit(1)`, so a rejected user never gets a process | medium, not executed | `Session.RejectedUserStillSpawns` | `Session.ExitEndsSession` |
