/** One invocation of the program: the layout is resolved first, then the plan
    for the command line runs, and the exit status follows from how it ended.
    `ok(k)` is the outcome of the k-th step of the plan. */
module Vgp {
  import opened Config
  import opened Rewriter
  import opened Executor
  import opened Router

  datatype Outcome = ConfigError(key: string) | Ran(report: Report)

  /** `log.Fatalln` exits with status 1; returning from `main` with 0. */
  function ExitCode(o: Outcome): int
  {
    if o.Ran? && o.report.status == Completed then 0 else 1
  }

  function Invoke(root: string, section: map<string, string>, args: seq<string>, ok: nat -> bool): (o: Outcome)
    requires |args| >= 1
    ensures Value(section, PackageNameKey) == "" ==> o == ConfigError(PackageNameKey)
    ensures Value(section, PackageNameKey) != "" && Value(section, OutKey) == "" ==> o == ConfigError(OutKey)
    ensures Value(section, PackageNameKey) != "" && Value(section, OutKey) != "" ==> o.Ran?
    ensures o.Ran? && |args| == 1 ==> o.report == Report([], Completed)
  {
    match Resolve(root, section)
    case Missing(key) => ConfigError(key)
    case Resolved(l) => Ran(Run(Plan(l, args), ok))
  }

  /** `build`: the `go` command runs once the working directory and the dist
      directory are in place, and `strip -s outPath` only after `go`
      succeeded. Steps: 0 set GOPATH, 1 enter the package, 2 create dist,
      3 go, 4 strip. */
  lemma BuildStripsOnlyAfterGo(l: Layout, args: seq<string>, ok: nat -> bool)
    requires |args| >= 2 && RouteOf(args) == Build
    ensures Plan(l, args)[1].action == ChangeDir(l.packagePath)
            && Plan(l, args)[2].action == MakeDir(l.dist)
            && Plan(l, args)[3].action == Exec(Env, GoBuild(l, args))
    ensures var r := Run(Plan(l, args), ok);
            && (Exec(Env, GoBuild(l, args)) in r.performed <==> ok(1) && ok(2))
            && (Exec(Env, StripCommand(l)) in r.performed <==> ok(1) && ok(2) && ok(3))
            && (r.status == Completed <==> ok(1) && ok(2) && ok(3) && ok(4))
  {
    var p := Plan(l, args);
    var r := Run(p, ok);
    BuildSteps(l, args);
    RunReaches(p, ok, 3);
    RunReaches(p, ok, 4);
    RunReaches(p, ok, 5);
    assert Reached(p, ok, 3) == (ok(1) && ok(2)) by {
      assert Reached(p, ok, 1);
    }
    assert GoBuild(l, args)[0] != StripCommand(l)[0];
    PerformedOnce(p, ok, 3, Exec(Env, GoBuild(l, args)));
    PerformedOnce(p, ok, 4, Exec(Env, StripCommand(l)));
  }

  lemma BuildSteps(l: Layout, args: seq<string>)
    requires |args| >= 2 && RouteOf(args) == Build
    ensures Plan(l, args)
            == [ Step(SetGopath(l.root), Ignore), Step(ChangeDir(l.packagePath), Abort),
                 Step(MakeDir(l.dist), Abort), Step(Exec(Env, GoBuild(l, args)), Abort),
                 Step(Exec(Env, StripCommand(l)), Abort) ]
  {
  }

  /** `init`: `glide install` runs only after `glide create` succeeded, and
      both only after the package directory, the editor settings directory
      and file, and the move into the package. Steps: 0 create the package
      directory, 1 create `.vscode`, 2 write `settings.json`, 3 set GOPATH,
      4 enter the package, 5 glide create, 6 glide install. */
  lemma InitInstallsOnlyAfterCreate(l: Layout, args: seq<string>, ok: nat -> bool)
    requires |args| >= 2 && RouteOf(args) == InitProject
    ensures var r := Run(Plan(l, args), ok);
            && (Exec(Env, GlideCreate) in r.performed <==> ok(0) && ok(1) && ok(2) && ok(4))
            && (Exec(Env, GlideInstall) in r.performed <==> ok(0) && ok(1) && ok(2) && ok(4) && ok(5))
            && (r.status == Completed <==> ok(0) && ok(1) && ok(2) && ok(4) && ok(5) && ok(6))
  {
    var p := Plan(l, args);
    InitSteps(l, args);
    RunReaches(p, ok, 5);
    RunReaches(p, ok, 6);
    RunReaches(p, ok, 7);
    assert Reached(p, ok, 1) == ok(0);
    assert Reached(p, ok, 2) == (ok(0) && ok(1));
    assert Reached(p, ok, 4) == (ok(0) && ok(1) && ok(2));
    assert Reached(p, ok, 5) == (ok(0) && ok(1) && ok(2) && ok(4));
    assert GlideCreate[1] != GlideInstall[1];
    PerformedOnce(p, ok, 5, Exec(Env, GlideCreate));
    PerformedOnce(p, ok, 6, Exec(Env, GlideInstall));
  }

  lemma InitSteps(l: Layout, args: seq<string>)
    requires |args| >= 2 && RouteOf(args) == InitProject
    ensures Plan(l, args)
            == [ Step(MakeDir(l.packagePath), Abort), Step(MakeDir(VscodePath(l)), Abort),
                 Step(WriteSettings(Join(VscodePath(l), "settings.json")), Abort),
                 Step(SetGopath(l.root), Ignore), Step(ChangeDir(l.packagePath), Abort),
                 Step(Exec(Env, GlideCreate), Abort), Step(Exec(Env, GlideInstall), Abort) ]
  {
  }

  /** `get`, `up`, `rm` and unrecognised subcommands: the delegated command
      runs once the move into the package succeeded, and its own failure is
      discarded, so the exit status depends on that move alone. */
  lemma DelegateResultIgnored(root: string, section: map<string, string>, args: seq<string>, ok: nat -> bool)
    requires |args| >= 2 && RouteOf(args) in {Glide, GoTool}
    requires Resolve(root, section).Resolved?
    ensures Invoke(root, section, args, ok).Ran?
    ensures Plan(Resolve(root, section).layout, args)[1].action == ChangeDir(Resolve(root, section).layout.packagePath)
    ensures Exec(Env, args[0 := DelegateTool(args)]) in Invoke(root, section, args, ok).report.performed <==> ok(1)
    ensures ExitCode(Invoke(root, section, args, ok)) == 0 <==> ok(1)
  {
    var tool := DelegateTool(args);
    var l := Resolve(root, section).layout;
    var p := Plan(l, args);
    assert p == [ Step(SetGopath(l.root), Ignore), Step(ChangeDir(l.packagePath), Abort),
                  Step(Exec(Env, args[0 := tool]), Ignore) ];
    RunReaches(p, ok, 2);
    RunReaches(p, ok, 3);
    assert Reached(p, ok, 1);
    PerformedOnce(p, ok, 2, Exec(Env, args[0 := tool]));
    var r := Run(p, ok);
    assert FatalAt(p, ok, 1) <==> !ok(1);
    assert Invoke(root, section, args, ok) == Ran(r);
  }

  /** Two `build` command lines under `package_name = app`, `out = app.bin`:
      without `-o` the pair lands right after `build`, carrying the binary's
      path; with `-o old/path.bin` the value becomes the dist directory. */
  lemma BuildExamples(root: string)
    ensures var section := map[PackageNameKey := "app", OutKey := "app.bin"];
            var l := Resolve(root, section).layout;
            && Resolve(root, section).Resolved?
            && GoBuild(l, ["vgp", "build", "-x", "foo"])
               == ["go", "build", "-o", root + "/dist/app.bin", "-x", "foo"]
            && GoBuild(l, ["vgp", "build", "-o", "old/path.bin"])
               == ["go", "build", "-o", root + "/dist"]
  {
    var section := map[PackageNameKey := "app", OutKey := "app.bin"];
    assert Value(section, PackageNameKey) == "app" && Value(section, OutKey) == "app.bin";
    var l := Resolve(root, section).layout;
    assert l.dist == root + "/dist" && l.outPath == root + "/dist/app.bin";
    var a := ["vgp", "build", "-x", "foo"];
    assert NoOutputFlag(a);
    var b := ["vgp", "build", "-o", "old/path.bin"];
    assert FirstFlagAt(b, 2) && !IsFlag(b[3]);
  }

  /** The value `go build` receives after `-o` and the file `strip` is given
      agree only when the user gave no `-o`: after a user `-o` the value is
      the dist directory, which is never the binary's path. */
  lemma BuildOutputMismatch(l: Layout, args: seq<string>)
    requires WellFormed(l) && |args| >= 2
    ensures NoOutputFlag(args) ==> GoBuild(l, args)[3] == StripCommand(l)[2]
    ensures forall i {:trigger FirstFlagAt(args, i)} :: FirstFlagAt(args, i) ==>
              && i + 1 < |GoBuild(l, args)|
              && GoBuild(l, args)[i + 1] == l.dist
              && GoBuild(l, args)[i + 1] != StripCommand(l)[2]
  {
    RewritePinsOutput(args, l.dist, l.outPath);
    assert |l.dist| < |l.outPath|;
  }
}
