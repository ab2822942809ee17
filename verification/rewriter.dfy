/** The `build` argument rewriter: pins the `-o` output flag of a `go build`
    command line to the project's dist location. Arguments are the whole
    command line, program name at index 0 and subcommand at index 1. */
module Rewriter {

  datatype Option<T> = None | Some(value: T)

  const OutputFlag := "-o"

  /** `strings.HasPrefix(s, "-")`. */
  predicate IsFlag(s: string)
  {
    |s| > 0 && s[0] == '-'
  }

  /** No token of `args` is the output flag. */
  predicate NoOutputFlag(args: seq<string>)
  {
    forall j :: 0 <= j < |args| ==> args[j] != OutputFlag
  }

  /** Index `i` holds the first output flag of `args`. */
  predicate FirstFlagAt(args: seq<string>, i: int)
  {
    && 0 <= i < |args|
    && args[i] == OutputFlag
    && forall j :: 0 <= j < i ==> args[j] != OutputFlag
  }

  /** The left-to-right scan for the output flag, starting at `from`. */
  function FindFlag(args: seq<string>, from: nat): (r: Option<nat>)
    requires from <= |args|
    ensures r.Some? ==>
              && from <= r.value < |args|
              && args[r.value] == OutputFlag
              && forall j :: from <= j < r.value ==> args[j] != OutputFlag
    ensures r.None? ==> forall j :: from <= j < |args| ==> args[j] != OutputFlag
    decreases |args| - from
  {
    if from == |args| then None
    else if args[from] == OutputFlag then Some(from)
    else FindFlag(args, from + 1)
  }

  /** The rewrite of the `build` case. When no token is `-o`, the pair
      `-o outPath` goes right after the subcommand. When the first `-o` is at
      index i: as the last token, `distPath` is appended; followed by a flag,
      `distPath` is inserted between the two; followed by a value, that value
      alone becomes `distPath`. Later `-o` tokens are left alone. */
  function Rewrite(args: seq<string>, distPath: string, outPath: string): (r: seq<string>)
    requires |args| >= 2
    ensures NoOutputFlag(args) ==>
              && |r| == |args| + 2
              && r[0] == args[0] && r[1] == args[1]
              && r[2] == OutputFlag && r[3] == outPath
              && forall k :: 2 <= k < |args| ==> r[k + 2] == args[k]
    ensures forall i {:trigger FirstFlagAt(args, i)} :: FirstFlagAt(args, i) && i == |args| - 1 ==>
              && |r| == |args| + 1
              && r[..|args|] == args
              && r[|args|] == distPath
    ensures forall i {:trigger FirstFlagAt(args, i)} :: FirstFlagAt(args, i) && i < |args| - 1 && IsFlag(args[i + 1]) ==>
              && |r| == |args| + 1
              && r[..i + 1] == args[..i + 1]
              && r[i + 1] == distPath
              && r[i + 2..] == args[i + 1..]
    ensures forall i {:trigger FirstFlagAt(args, i)} :: FirstFlagAt(args, i) && i < |args| - 1 && !IsFlag(args[i + 1]) ==>
              && |r| == |args|
              && r[i + 1] == distPath
              && forall k :: 0 <= k < |args| && k != i + 1 ==> r[k] == args[k]
  {
    match FindFlag(args, 0)
    case None =>
      args[..2] + [OutputFlag, outPath] + args[2..]
    case Some(i) =>
      assert FirstFlagAt(args, i);
      FirstFlagUniqueAll(args, i);
      if i == |args| - 1 then args + [distPath]
      else if IsFlag(args[i + 1]) then args[..i + 1] + [distPath] + args[i + 1..]
      else args[i + 1 := distPath]
  }

  /** There is at most one first output flag. */
  lemma FirstFlagUniqueAll(args: seq<string>, i: int)
    requires FirstFlagAt(args, i)
    ensures forall j {:trigger FirstFlagAt(args, j)} :: FirstFlagAt(args, j) ==> j == i
  {
  }

  /** The same rewrite as a loop over the command line that breaks at the first
      `-o`, followed by the fallback insertion when nothing was replaced. */
  method RewriteArgs(args: seq<string>, distPath: string, outPath: string) returns (r: seq<string>)
    requires |args| >= 2
    ensures r == Rewrite(args, distPath, outPath)
  {
    r := args;
    var replaced := false;
    var i := 0;
    while i < |args|
      invariant 0 <= i <= |args|
      invariant !replaced && r == args
      invariant forall j :: 0 <= j < i ==> args[j] != OutputFlag
    {
      if r[i] != OutputFlag {
        i := i + 1;
        continue;
      }
      assert FirstFlagAt(args, i);
      if i == |r| - 1 {
        r := r + [distPath];
      } else if IsFlag(r[i + 1]) {
        r := r[..i + 1] + [distPath] + r[i + 1..];
      } else {
        r := r[i + 1 := distPath];
      }
      replaced := true;
      break;
    }
    if !replaced {
      r := r[..2] + [OutputFlag, outPath] + args[2..];
    }
  }

  /** Exactly one of the four cases applies: either there is no `-o`, or
      there is exactly one first `-o`, and the three cases that follow it are
      told apart by its position and by the token after it. */
  lemma {:induction false} ExactlyOneBranch(args: seq<string>)
    ensures NoOutputFlag(args) <==> !exists i :: FirstFlagAt(args, i)
    ensures forall i, j {:trigger FirstFlagAt(args, i), FirstFlagAt(args, j)} ::
              FirstFlagAt(args, i) && FirstFlagAt(args, j) ==> i == j
  {
    match FindFlag(args, 0)
    case None =>
    case Some(i) =>
      assert FirstFlagAt(args, i);
  }

  /** After the rewrite, the first `-o` is followed by the pinned path:
      `distPath` at the user's own flag, `outPath` at the inserted one. */
  lemma RewritePinsOutput(args: seq<string>, distPath: string, outPath: string)
    requires |args| >= 2
    ensures var r := Rewrite(args, distPath, outPath);
            NoOutputFlag(args) ==> FirstFlagAt(r, 2) && r[3] == outPath
    ensures var r := Rewrite(args, distPath, outPath);
            forall i {:trigger FirstFlagAt(args, i)} :: FirstFlagAt(args, i) ==>
              FirstFlagAt(r, i) && i + 1 < |r| && r[i + 1] == distPath
  {
  }

  /** The program name is never changed. The subcommand is kept unless the
      program name itself is `-o`, in which case `distPath` takes slot 1. */
  lemma RewriteKeepsHead(args: seq<string>, distPath: string, outPath: string)
    requires |args| >= 2
    ensures var r := Rewrite(args, distPath, outPath);
            && r[0] == args[0]
            && (args[0] != OutputFlag ==> r[1] == args[1])
            && (args[0] == OutputFlag ==> r[1] == distPath)
  {
  }

  /** The number of `-o` tokens on a command line. */
  function Occurrences(s: seq<string>): nat
  {
    if s == [] then 0
    else (if s[0] == OutputFlag then 1 else 0) + Occurrences(s[1..])
  }

  lemma {:induction false} OccurrencesAppend(a: seq<string>, b: seq<string>)
    ensures Occurrences(a + b) == Occurrences(a) + Occurrences(b)
    decreases |a|
  {
    if a != [] {
      assert (a + b)[1..] == a[1..] + b;
      OccurrencesAppend(a[1..], b);
    } else {
      assert a + b == b;
    }
  }

  lemma OccurrencesSplice(front: seq<string>, middle: seq<string>, back: seq<string>)
    ensures Occurrences(front + middle + back) == Occurrences(front + back) + Occurrences(middle)
  {
    OccurrencesAppend(front + middle, back);
    OccurrencesAppend(front, middle);
    OccurrencesAppend(front, back);
  }

  lemma OccurrencesSingle(v: string)
    ensures Occurrences([v]) == if v == OutputFlag then 1 else 0
  {
  }

  /** No `-o` token is lost or duplicated: later ones survive, and exactly one
      is added when there was none. */
  lemma RewriteFlagCount(args: seq<string>, distPath: string, outPath: string)
    requires |args| >= 2
    requires distPath != OutputFlag && outPath != OutputFlag
    ensures Occurrences(Rewrite(args, distPath, outPath))
            == Occurrences(args) + (if NoOutputFlag(args) then 1 else 0)
  {
    match FindFlag(args, 0)
    case None =>
      FlagCountNone(args, distPath, outPath);
    case Some(i) =>
      FlagPresent(args, i);
      if i == |args| - 1 {
        FlagCountAppend(args, distPath, outPath);
      } else if IsFlag(args[i + 1]) {
        FlagCountInsert(args, i, distPath, outPath);
      } else {
        FlagCountValue(args, i, distPath, outPath);
      }
  }

  lemma FlagPresent(args: seq<string>, i: nat)
    requires i < |args| && args[i] == OutputFlag
    ensures !NoOutputFlag(args)
  {
  }

  lemma FlagCountNone(args: seq<string>, distPath: string, outPath: string)
    requires |args| >= 2 && outPath != OutputFlag
    requires FindFlag(args, 0) == None
    ensures NoOutputFlag(args)
    ensures Occurrences(Rewrite(args, distPath, outPath)) == Occurrences(args) + 1
  {
    assert Rewrite(args, distPath, outPath) == args[..2] + [OutputFlag, outPath] + args[2..];
    FlagCountAddPair(args, outPath);
  }

  lemma FlagCountAppend(args: seq<string>, distPath: string, outPath: string)
    requires |args| >= 2 && distPath != OutputFlag
    requires FindFlag(args, 0) == Some(|args| - 1)
    ensures Occurrences(Rewrite(args, distPath, outPath)) == Occurrences(args)
  {
    assert Rewrite(args, distPath, outPath) == args[..|args|] + [distPath] + args[|args|..];
    FlagCountSplice(args, |args|, distPath);
  }

  lemma FlagCountInsert(args: seq<string>, i: nat, distPath: string, outPath: string)
    requires |args| >= 2 && distPath != OutputFlag
    requires FindFlag(args, 0) == Some(i) && i < |args| - 1 && IsFlag(args[i + 1])
    ensures Occurrences(Rewrite(args, distPath, outPath)) == Occurrences(args)
  {
    assert Rewrite(args, distPath, outPath) == args[..i + 1] + [distPath] + args[i + 1..];
    FlagCountSplice(args, i + 1, distPath);
  }

  lemma FlagCountValue(args: seq<string>, i: nat, distPath: string, outPath: string)
    requires |args| >= 2 && distPath != OutputFlag
    requires FindFlag(args, 0) == Some(i) && i < |args| - 1 && !IsFlag(args[i + 1])
    ensures Occurrences(Rewrite(args, distPath, outPath)) == Occurrences(args)
  {
    assert Rewrite(args, distPath, outPath) == args[i + 1 := distPath];
    FlagCountReplace(args, i + 1, distPath);
  }

  lemma FlagCountAddPair(args: seq<string>, outPath: string)
    requires |args| >= 2 && outPath != OutputFlag
    ensures Occurrences(args[..2] + [OutputFlag, outPath] + args[2..]) == Occurrences(args) + 1
  {
    OccurrencesSplice(args[..2], [OutputFlag, outPath], args[2..]);
    assert args[..2] + args[2..] == args;
    assert [OutputFlag, outPath] == [OutputFlag] + [outPath];
    OccurrencesAppend([OutputFlag], [outPath]);
    OccurrencesSingle(OutputFlag);
    OccurrencesSingle(outPath);
  }

  lemma FlagCountSplice(args: seq<string>, k: nat, v: string)
    requires k <= |args| && v != OutputFlag
    ensures Occurrences(args[..k] + [v] + args[k..]) == Occurrences(args)
  {
    OccurrencesSplice(args[..k], [v], args[k..]);
    assert args[..k] + args[k..] == args;
    OccurrencesSingle(v);
  }

  lemma FlagCountReplace(s: seq<string>, k: nat, v: string)
    requires k < |s| && s[k] != OutputFlag && v != OutputFlag
    ensures Occurrences(s[k := v]) == Occurrences(s)
  {
    assert s == s[..k] + [s[k]] + s[k + 1..];
    assert s[k := v] == s[..k] + [v] + s[k + 1..];
    OccurrencesSplice(s[..k], [s[k]], s[k + 1..]);
    OccurrencesSplice(s[..k], [v], s[k + 1..]);
    OccurrencesSingle(s[k]);
    OccurrencesSingle(v);
  }

  /** Rewriting an already rewritten command line: where the user gave `-o`
      nothing changes, but where the pair was inserted its `outPath` value
      becomes `distPath`, because only the inserted pair uses `outPath`. */
  lemma RewriteTwice(args: seq<string>, distPath: string, outPath: string)
    requires |args| >= 2
    requires !IsFlag(distPath) && !IsFlag(outPath)
    ensures var r := Rewrite(args, distPath, outPath);
            && (!NoOutputFlag(args) ==> Rewrite(r, distPath, outPath) == r)
            && (NoOutputFlag(args) ==> Rewrite(r, distPath, outPath) == r[3 := distPath])
  {
    var r := Rewrite(args, distPath, outPath);
    RewritePinsOutput(args, distPath, outPath);
    if NoOutputFlag(args) {
      assert FirstFlagAt(r, 2);
    } else {
      ExactlyOneBranch(args);
      var i :| FirstFlagAt(args, i);
      assert FirstFlagAt(r, i);
      assert Rewrite(r, distPath, outPath) == r[i + 1 := distPath];
    }
  }
}
