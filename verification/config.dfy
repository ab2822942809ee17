/** The project layout: the two required keys of `vgp.ini` and the five paths
    derived from them and from the working directory. */
module Config {

  /** Path joining. The program uses `filepath.Join`; its cleaning of `.`/`..`
      and duplicate separators is not modelled, only the separator. */
  function Join(dir: string, name: string): (p: string)
    ensures |p| == |dir| + 1 + |name|
    ensures p[..|dir|] == dir && p[|dir|] == '/' && p[|dir| + 1..] == name
  {
    dir + "/" + name
  }

  const PackageNameKey := "package_name"
  const OutKey := "out"

  /** A value of the ini file's default section: a missing key reads as "". */
  function Value(section: map<string, string>, key: string): string
  {
    if key in section then section[key] else ""
  }

  datatype Layout = Layout(
    root: string,
    src: string,
    dist: string,
    packageName: string,
    packagePath: string,
    outName: string,
    outPath: string)

  /** The relations every resolved layout satisfies:
      root/src/<package_name> holds the sources, root/dist/<out> the binary. */
  predicate WellFormed(l: Layout)
  {
    && l.src == Join(l.root, "src")
    && l.dist == Join(l.root, "dist")
    && l.packageName != ""
    && l.packagePath == Join(l.src, l.packageName)
    && l.outName != ""
    && l.outPath == Join(l.dist, l.outName)
  }

  /** Either the layout, or the name of the first required key found empty. */
  datatype Resolution = Resolved(layout: Layout) | Missing(key: string)

  /** Reads the two keys and derives the paths; `package_name` is checked
      before `out`. */
  function Resolve(root: string, section: map<string, string>): (r: Resolution)
    ensures r.Missing? <==> Value(section, PackageNameKey) == "" || Value(section, OutKey) == ""
    ensures Value(section, PackageNameKey) == "" ==> r == Missing(PackageNameKey)
    ensures Value(section, PackageNameKey) != "" && Value(section, OutKey) == "" ==> r == Missing(OutKey)
    ensures r.Resolved? ==>
              && WellFormed(r.layout)
              && r.layout.root == root
              && r.layout.packageName == Value(section, PackageNameKey)
              && r.layout.outName == Value(section, OutKey)
  {
    var packageName := Value(section, PackageNameKey);
    var outName := Value(section, OutKey);
    if packageName == "" then Missing(PackageNameKey)
    else if outName == "" then Missing(OutKey)
    else
      var src := Join(root, "src");
      var dist := Join(root, "dist");
      Resolved(Layout(root, src, dist, packageName, Join(src, packageName), outName, Join(dist, outName)))
  }

  /** A well-formed layout is determined by its root and its two names: writing
      them back as an ini section and resolving gives the same layout. */
  lemma ResolveRoundTrip(l: Layout)
    requires WellFormed(l)
    ensures Resolve(l.root, map[PackageNameKey := l.packageName, OutKey := l.outName]) == Resolved(l)
  {
  }

  /** The last component of `Join(dir, name)` relative to `dir`. */
  function BaseName(path: string, dir: string): (name: string)
    requires |dir| < |path|
  {
    path[|dir| + 1..]
  }

  /** The binary lands under dist, the sources under src, and the two never
      coincide nor contain one another: they differ right after the root. */
  lemma {:induction false} OutputOutsideSources(l: Layout)
    requires WellFormed(l)
    ensures BaseName(l.outPath, l.dist) == l.outName
    ensures BaseName(l.packagePath, l.src) == l.packageName
    ensures l.outPath != l.packagePath
    ensures !(l.outPath <= l.packagePath) && !(l.packagePath <= l.outPath)
    ensures !(l.dist <= l.packagePath) && !(l.src <= l.outPath)
  {
    var n := |l.root| + 1;
    assert l.outPath[n] == 'd' by {
      assert l.outPath[..|l.dist|] == l.dist;
      assert l.dist[n] == 'd';
    }
    assert l.packagePath[n] == 's' by {
      assert l.packagePath[..|l.src|] == l.src;
      assert l.src[n] == 's';
    }
    assert l.dist[n] == 'd' && l.src[n] == 's';
  }
}
