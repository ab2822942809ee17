# vgp: the command router and `build` argument rewriter

`vgp` sits in front of the Go toolchain and the glide dependency manager. It
treats the working directory as a project root holding `vgp.ini`, reads the
two required keys `package_name` and `out`, and derives the layout
`root/src`, `root/src/<package_name>`, `root/dist` and `root/dist/<out>`.
It then routes its first argument:

- `init` creates the package and editor-settings directories, writes
  `.vscode/settings.json`, and runs `glide create` and then `glide install`.
- `build` rewrites the command line so that `go build` writes into `dist`,
  runs it, and then runs `strip -s` on the binary.
- `get`, `up` and `rm` are forwarded to `glide`.
- Anything else is forwarded to `go`.

Every delegation sets `GOPATH` to the root and moves into the package
directory first.

The model is functional:

- `Config` derives the layout from the root and the ini section. A missing
  key reads as the empty string.
- `Rewriter` is the pure `build` rewrite. `FindFlag` is the scan and
  `RewriteArgs` is the loop as the program writes it.
- `Executor` runs a plan of abstract steps. Each step succeeds or fails
  according to a given `ok: nat -> bool`. A failed step either ends the
  program (`log.Fatalln`) or has its result discarded.
- `Router` builds the plan for a command line.
- `Vgp` puts the pieces together for one invocation: configuration first,
  then the plan, then the exit status.

Behaviours of the code worth noting:

- The root is the working directory. There is no upward search for
  `vgp.ini`.
- Only `init` starts a project. `create` is forwarded to `go` like any
  other unknown word.
- The glide subcommands are exactly `get`, `up` and `rm`.
- With no `-o`, the pair `-o <root>/dist/<out>` is inserted right after the
  subcommand, at index 2, not at the end.
- When the user gave `-o`, the value put in is the dist *directory*, not the
  binary's path. So `strip -s <root>/dist/<out>` may then act on a file this
  build did not write. `BuildOutputMismatch` states this: after a user `-o`
  the value handed to `go` is the dist directory and differs from the path
  given to `strip` (for an `out` that is a plain file name); with no user
  `-o` the two agree.
- A value after `-o` is replaced whatever it is. No relative path is
  resolved.
- The `-o` scan starts at index 0, the program name included.
- The results of delegations to `glide` and of the default `go` delegation
  are discarded. The program exits 0 even when the delegate fails.
- The configuration is checked before the "no subcommand" case. A bare
  `vgp` with a bad `vgp.ini` therefore fails.

## Model

| member | source | states |
|---|---|---|
| `Config.Resolve` | vgp.go:35-53 | An empty `package_name` is reported first, even when `out` is empty too. Otherwise an empty `out` is reported. Otherwise the result is a well-formed layout: src and dist under the root, the package under src and the binary under dist, carrying the two names read. |
| `Config.ResolveRoundTrip` | vgp.go:43-53 | A well-formed layout is fixed by its root and two names. Writing the names back as an ini section and resolving gives the same layout. |
| `Config.OutputOutsideSources` | vgp.go:35-53 | The binary's name is recovered from its path under dist, and the package's name from its path under src. The binary path and the package directory never coincide and neither contains the other. |
| `Rewriter.FindFlag` | vgp.go:137-140 | The scan returns the first index from its start that holds `-o`, or reports that no such index exists. |
| `Rewriter.Rewrite` | vgp.go:136-157 | With no `-o`, the length grows by 2. Slots 0 and 1 are kept, slot 2 is `-o`, slot 3 is the binary path, and every later token is shifted by 2. With the first `-o` last, the line gets the dist directory appended. With the first `-o` at i followed by a flag, the dist directory is inserted at i+1 and everything from i+1 on shifts by one. With the first `-o` at i followed by a value, only slot i+1 changes, to the dist directory, and the length stays. |
| `Rewriter.RewriteArgs` | vgp.go:136-157 | The program's loop breaks at the first `-o` and falls back to the insertion when nothing was replaced. It computes exactly the functional rewrite. |
| `Rewriter.ExactlyOneBranch` | vgp.go:137-151 | A command line either has no `-o` or has exactly one first `-o`, never both. So exactly one of the four cases applies. |
| `Rewriter.RewritePinsOutput` | vgp.go:141-156 | In the result, the first `-o` stays where the user's first `-o` was, followed by the dist directory. When the user gave none, the first `-o` is at index 2, followed by the binary path. |
| `Rewriter.RewriteKeepsHead` | vgp.go:136-159 | The program name is never changed. The subcommand is kept unless the program name is itself `-o`, in which case the dist directory takes its slot. |
| `Rewriter.RewriteFlagCount` | vgp.go:137-157 | Counted over the whole line, no `-o` token is removed or duplicated, so later ones survive. Exactly one is added when there was none. This holds when neither pinned path is itself `-o`. |
| `Rewriter.RewriteTwice` | vgp.go:141-156 | Rewriting a rewritten line changes nothing when the user gave `-o`. Otherwise the inserted binary path becomes the dist directory. |
| `Executor.RunFrom` | vgp.go:160-173 | Steps run in order, and the performed steps are a prefix of the plan. The run completes exactly when no step with the abort policy fails. Otherwise it stops at the first such failure, which is the last step performed. |
| `Executor.RunReaches` | vgp.go:104-112 | Step k is performed exactly when no earlier step failed fatally. The run completes exactly when no step at all failed fatally. Steps whose failures are ignored never stop the run. |
| `Router.Plan` | vgp.go:55-174 | The route is chosen by `Router.RouteOf`, which models the two `switch os.Args[1]` statements (vgp.go:59-64 and vgp.go:126-174): `init` first, then `build`, then `get`/`up`/`rm`, otherwise `go`. The plan is empty exactly when only the program name is given. Every `Exec` goes through `/usr/bin/env`, after `GOPATH` is set to the root and the move into the package. `init` runs `glide create` and then `glide install`. `build` runs the rewritten line with `go` in slot 0, then `strip -s <binary>`. `get`/`up`/`rm` and every other word run the same line with `Router.DelegateTool` (`glide` or `go`) in slot 0. Delegated failures abort only for `init` and `build`. |
| `Vgp.Invoke` | vgp.go:28-64 | An empty `package_name`, and then an empty `out`, is reported before the command line is looked at. With a valid configuration and no subcommand, nothing runs and the run completes. The exit status is given by `Vgp.ExitCode`: 1 for a configuration error or a fatal step (`log.Fatalln`), 0 when `main` returns. |
| `Vgp.BuildStripsOnlyAfterGo` | vgp.go:119-167 | Steps 1, 2 and 3 of the plan are entering the package, creating dist and `go`. `go` runs exactly when entering the package and creating dist succeeded. `strip` runs exactly when, in addition, `go` succeeded. The run completes exactly when all four of those succeed. |
| `Vgp.InitInstallsOnlyAfterCreate` | vgp.go:67-112 | `glide create` runs exactly when the directories, the settings file and the move into the package succeeded. `glide install` runs exactly when, in addition, `glide create` succeeded. The `GOPATH` step never stops the run. |
| `Vgp.DelegateResultIgnored` | vgp.go:115-173 | For `get`/`up`/`rm` and unknown subcommands, step 1 is the move into the package, and the delegated line runs exactly when the move into the package succeeded. The exit status is 0 exactly then, whatever the delegate's outcome. |
| `Vgp.BuildOutputMismatch` | vgp.go:141-164 | With no user `-o`, the value after the inserted `-o` is exactly the path `strip -s` receives. After a user `-o` at i, the value at i+1 is the dist directory, which differs from the path `strip -s` receives. The difference holds under the uncleaned join only (see "## Left out"). |
| `Vgp.BuildExamples` | vgp.go:136-159 | With `package_name = app` and `out = app.bin`, `vgp build -x foo` runs `go build -o <root>/dist/app.bin -x foo`. `vgp build -o old/path.bin` runs `go build -o <root>/dist`. |

## Left out

- `execute` (vgp.go:177-206) is left out: starting the process, attaching
  stdin, the two goroutines that copy stdout and stderr, and waiting. Each
  step's success is an input (`ok`). A start failure and a non-zero exit
  are both just "failed".
- `os.Getwd` and `ini.Load` are left out, along with their failures. The
  root and the ini file's default section are inputs. Parsing the ini
  format belongs to the go-ini library, which is not part of this model.
- Filesystem and environment effects appear only as plan actions. Their
  effects are not modelled: `MakeDir` covers `os.Stat` plus `MkdirAll`
  when the directory is absent, `WriteSettings` stands for the
  `settings.json` write, `ChangeDir` for `os.Chdir`, and `SetGopath` for
  `os.Setenv`. The settings file's content, including the original
  `GOPATH` it records, is not modelled.
- Config.Join: `filepath.Join` is modelled as concatenation with `/`. Its
  cleaning of `.`, `..` and repeated separators is not modelled.
- Config.OutputOutsideSources: holds for the uncleaned join only. With
  `filepath.Join`'s cleaning, names that are not single plain segments can
  break it: `package_name = ../dist/app.bin` with `out = app.bin` makes the
  package directory and the binary path equal, `package_name = ../dist`
  makes the package directory contain the binary, and `out = ./app.bin`
  changes the binary's name under dist.
- Vgp.BuildOutputMismatch: the inequality between the value after a user
  `-o` and the path `strip -s` receives holds for the uncleaned join only.
  With `filepath.Join`'s cleaning, `out = .` (or `out = x/..`) makes the
  binary path equal to the dist directory, and the two then agree.
- The text of the `log.Fatalln` messages is not modelled. A configuration
  failure carries only the name of the missing key, and a fatal step
  carries the action that failed.
- The exit status of a fatal failure is 1, as `log.Fatalln` gives. The
  delegate's own exit code is not passed through, because the program does
  not pass it through either.
