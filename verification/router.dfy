/** Subcommand routing: the plan of steps `init`, `build`, the glide
    subcommands and everything else turn into, given the resolved layout. */
module Router {
  import opened Config
  import opened Rewriter
  import opened Executor

  /** Every delegated command is run through `env`. */
  const Env := "/usr/bin/env"

  const GlideCreate: seq<string> := ["glide", "create", "--skip-import", "--non-interactive"]
  const GlideInstall: seq<string> := ["glide", "install", "--skip-test", "--strip-vendor"]

  /** The subcommands forwarded to glide. */
  const GlideCommands: set<string> := {"get", "up", "rm"}

  datatype Route = NoCommand | InitProject | Build | Glide | GoTool

  /** `main` checks only for `init`; the remaining cases are told apart
      inside `proxyCommand`. */
  function RouteOf(args: seq<string>): Route
    requires |args| >= 1
  {
    if |args| == 1 then NoCommand
    else if args[1] == "init" then InitProject
    else if args[1] == "build" then Build
    else if args[1] in GlideCommands then Glide
    else GoTool
  }

  /** The tool that replaces the program name for a verbatim delegation. */
  function DelegateTool(args: seq<string>): string
    requires |args| >= 1
  {
    if RouteOf(args) == Glide then "glide" else "go"
  }

  /** `GOPATH` is pointed at the root and the working directory moved into the
      package before anything is delegated. */
  function Prepare(l: Layout): seq<Step>
  {
    [Step(SetGopath(l.root), Ignore), Step(ChangeDir(l.packagePath), Abort)]
  }

  function VscodePath(l: Layout): string
  {
    Join(l.root, ".vscode")
  }

  /** The package directory and the editor settings `init` sets up first. */
  function SettingsSteps(l: Layout): seq<Step>
  {
    [ Step(MakeDir(l.packagePath), Abort),
      Step(MakeDir(VscodePath(l)), Abort),
      Step(WriteSettings(Join(VscodePath(l), "settings.json")), Abort) ]
  }

  function InitPlan(l: Layout): seq<Step>
  {
    SettingsSteps(l)
    + Prepare(l)
    + [ Step(Exec(Env, GlideCreate), Abort),
        Step(Exec(Env, GlideInstall), Abort) ]
  }

  /** The command line handed to `go`: the rewritten arguments with the
      program name replaced. */
  function GoBuild(l: Layout, args: seq<string>): seq<string>
    requires |args| >= 2
  {
    Rewrite(args, l.dist, l.outPath)[0 := "go"]
  }

  function StripCommand(l: Layout): seq<string>
  {
    ["strip", "-s", l.outPath]
  }

  function BuildPlan(l: Layout, args: seq<string>): seq<Step>
    requires |args| >= 2
  {
    Prepare(l)
    + [ Step(MakeDir(l.dist), Abort),
        Step(Exec(Env, GoBuild(l, args)), Abort),
        Step(Exec(Env, StripCommand(l)), Abort) ]
  }

  /** The command lines of the `Exec` steps of a plan, in order. */
  function Commands(plan: seq<Step>): (cs: seq<seq<string>>)
    ensures |cs| <= |plan|
  {
    if plan == [] then []
    else (if plan[0].action.Exec? then [plan[0].action.args] else []) + Commands(plan[1..])
  }

  lemma {:induction false} CommandsAppend(a: seq<Step>, b: seq<Step>)
    ensures Commands(a + b) == Commands(a) + Commands(b)
    decreases |a|
  {
    if a == [] {
      assert a + b == b;
    } else {
      assert (a + b)[0] == a[0];
      assert (a + b)[1..] == a[1..] + b;
      CommandsAppend(a[1..], b);
    }
  }

  lemma CommandsSingle(s: Step)
    ensures Commands([s]) == if s.action.Exec? then [s.action.args] else []
  {
  }

  lemma {:induction false} CommandsNoExec(plan: seq<Step>)
    requires forall k :: 0 <= k < |plan| ==> !plan[k].action.Exec?
    ensures Commands(plan) == []
    decreases |plan|
  {
    if plan != [] {
      CommandsNoExec(plan[1..]);
    }
  }

  lemma CommandsPair(s: Step, t: Step)
    requires s.action.Exec? && t.action.Exec?
    ensures Commands([s, t]) == [s.action.args, t.action.args]
  {
    assert [s, t] == [s] + [t];
    CommandsAppend([s], [t]);
    CommandsSingle(s);
    CommandsSingle(t);
  }

  /** PreparedBefore(plan, l, k): the steps before `k` set `GOPATH` to the root
      and move into the package directory, the latter fatally. */
  predicate PreparedBefore(plan: seq<Step>, l: Layout, k: nat)
    requires k <= |plan|
  {
    && Step(SetGopath(l.root), Ignore) in plan[..k]
    && Step(ChangeDir(l.packagePath), Abort) in plan[..k]
  }

  /** The plan for one invocation. */
  function Plan(l: Layout, args: seq<string>): (p: seq<Step>)
    requires |args| >= 1
    ensures p == [] <==> |args| == 1
    ensures forall k :: 0 <= k < |p| && p[k].action.Exec? ==>
              p[k].action.program == Env && PreparedBefore(p, l, k)
    ensures RouteOf(args) == InitProject ==> Commands(p) == [GlideCreate, GlideInstall]
    ensures RouteOf(args) == Build ==>
              Commands(p) == [GoBuild(l, args), StripCommand(l)]
    ensures RouteOf(args) in {Glide, GoTool} ==>
              && |Commands(p)| == 1
              && |Commands(p)[0]| == |args|
              && Commands(p)[0][0] == DelegateTool(args)
              && Commands(p)[0][1..] == args[1..]
    ensures forall k :: 0 <= k < |p| && p[k].action.Exec? ==>
              (p[k].onFailure == Abort <==> RouteOf(args) in {InitProject, Build})
  {
    match RouteOf(args)
    case NoCommand => []
    case InitProject =>
      InitCommands(l);
      InitPrepared(l);
      InitPlan(l)
    case Build =>
      BuildCommands(l, args);
      BuildPlan(l, args)
    case Glide =>
      DelegateCommands(l, args[0 := DelegateTool(args)]);
      Prepare(l) + [Step(Exec(Env, args[0 := DelegateTool(args)]), Ignore)]
    case GoTool =>
      DelegateCommands(l, args[0 := DelegateTool(args)]);
      Prepare(l) + [Step(Exec(Env, args[0 := DelegateTool(args)]), Ignore)]
  }

  lemma PrepareCommands(l: Layout)
    ensures Commands(Prepare(l)) == []
  {
  }

  lemma DelegateCommands(l: Layout, command: seq<string>)
    ensures Commands(Prepare(l) + [Step(Exec(Env, command), Ignore)]) == [command]
  {
    CommandsAppend(Prepare(l), [Step(Exec(Env, command), Ignore)]);
    PrepareCommands(l);
    CommandsSingle(Step(Exec(Env, command), Ignore));
  }

  lemma InitCommands(l: Layout)
    ensures Commands(InitPlan(l)) == [GlideCreate, GlideInstall]
  {
    var before := SettingsSteps(l) + Prepare(l);
    var delegated := [Step(Exec(Env, GlideCreate), Abort), Step(Exec(Env, GlideInstall), Abort)];
    assert InitPlan(l) == before + delegated;
    CommandsNoExec(before);
    CommandsAppend(before, delegated);
    CommandsPair(delegated[0], delegated[1]);
  }

  lemma InitPrepared(l: Layout)
    ensures var p := InitPlan(l);
            forall k :: 0 <= k < |p| && p[k].action.Exec? ==> PreparedBefore(p, l, k)
  {
    var p := InitPlan(l);
    forall k | 0 <= k < |p| && p[k].action.Exec?
      ensures PreparedBefore(p, l, k)
    {
      assert k >= 5;
      assert p[..k][3] == p[3] && p[..k][4] == p[4];
    }
  }

  lemma BuildCommands(l: Layout, args: seq<string>)
    requires |args| >= 2
    ensures Commands(BuildPlan(l, args)) == [GoBuild(l, args), StripCommand(l)]
  {
    var before := Prepare(l) + [Step(MakeDir(l.dist), Abort)];
    var delegated := [Step(Exec(Env, GoBuild(l, args)), Abort), Step(Exec(Env, StripCommand(l)), Abort)];
    assert BuildPlan(l, args) == before + delegated;
    CommandsNoExec(before);
    CommandsAppend(before, delegated);
    CommandsPair(delegated[0], delegated[1]);
  }
}
