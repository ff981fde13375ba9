/** Dependency detection (backend/src/services/detection.ts): the two manifest
    parsers, the upgrade filter over registry answers, and the incident built
    from a crashed simulation. Reading files, globbing for manifests and the
    registry HTTP calls are left out: a manifest arrives as its parsed
    content and each registry call as a `Lookup` answer. */
module Detection {
  import opened Wrappers
  import opened Strings
  import opened Seqs
  import opened SemVer
  import opened Types
  import opened Sandbox

  // ----- npm: package.json -----

  /** The version cleanup of `parseNpmDependencies` (a regex replace anchored
      at the start): drops the maximal leading run of non-digit characters. */
  function StripVersionPrefix(v: string): (r: string)
    ensures |r| <= |v|
    decreases |v|
  {
    if |v| > 0 && !IsDigit(v[0]) then StripVersionPrefix(v[1..]) else v
  }

  /** What is dropped is all non-digits, and what is kept is a suffix that is
      empty or starts with a digit. */
  lemma {:induction false} StripVersionPrefixDropsNonDigits(v: string)
    ensures var r := StripVersionPrefix(v);
            && r == v[|v| - |r|..]
            && (forall k :: 0 <= k < |v| - |r| ==> !IsDigit(v[k]))
            && (r == [] || IsDigit(r[0]))
    decreases |v|
  {
    if |v| > 0 && !IsDigit(v[0]) {
      StripVersionPrefixDropsNonDigits(v[1..]);
      var r := StripVersionPrefix(v);
      assert forall k :: 1 <= k < |v| - |r| ==> v[k] == v[1..][k - 1];
    }
  }

  /** Range operators go: `^1.2.3` and `~1.2.3` both become `1.2.3`, and a
      stripped version is left as it is. */
  lemma StripVersionPrefixExamples(v: string)
    ensures StripVersionPrefix("^1.2.3") == "1.2.3"
    ensures StripVersionPrefix("~1.2.3") == "1.2.3"
    ensures StripVersionPrefix(StripVersionPrefix(v)) == StripVersionPrefix(v)
  {
    assert StripVersionPrefix("1.2.3") == "1.2.3";
    assert "^1.2.3"[1..] == "1.2.3";
    assert "~1.2.3"[1..] == "1.2.3";
  }

  /** A JSON object's own properties in order, keys possibly repeated. */
  type Entries = seq<(string, string)>

  /** The value of property `k`: the last assignment wins. */
  function Get(es: Entries, k: string): Option<string>
    decreases |es|
  {
    if |es| == 0 then None
    else if es[|es| - 1].0 == k then Some(es[|es| - 1].1)
    else Get(es[..|es| - 1], k)
  }

  predicate DistinctKeys(es: Entries) {
    forall i, j :: 0 <= i < j < |es| ==> es[i].0 != es[j].0
  }

  lemma {:induction false} GetFound(es: Entries, k: string)
    ensures Get(es, k).Some? ==> exists i :: 0 <= i < |es| && es[i] == (k, Get(es, k).value)
    ensures Get(es, k).None? <==> forall i :: 0 <= i < |es| ==> es[i].0 != k
    decreases |es|
  {
    if |es| > 0 && es[|es| - 1].0 != k {
      GetFound(es[..|es| - 1], k);
      var p := es[..|es| - 1];
      assert forall i :: 0 <= i < |p| ==> p[i] == es[i];
    }
  }

  lemma {:induction false} GetDistinct(es: Entries, i: nat)
    requires DistinctKeys(es) && i < |es|
    ensures Get(es, es[i].0) == Some(es[i].1)
    decreases |es|
  {
    if i < |es| - 1 {
      GetDistinct(es[..|es| - 1], i);
    }
  }

  function IndexOfKey(es: Entries, k: string): (r: Option<nat>)
    ensures r.Some? ==> r.value < |es| && es[r.value].0 == k
    ensures r.None? ==> forall i :: 0 <= i < |es| ==> es[i].0 != k
    decreases |es|
  {
    if |es| == 0 then None
    else if es[|es| - 1].0 == k then Some(|es| - 1)
    else IndexOfKey(es[..|es| - 1], k)
  }

  /** `obj[k] = v` on an object: an existing property keeps its place, a new
      one goes last. */
  function Assign(obj: Entries, k: string, v: string): (r: Entries)
    requires DistinctKeys(obj)
    ensures DistinctKeys(r)
    ensures forall k' :: Get(r, k') == if k' == k then Some(v) else Get(obj, k')
  {
    match IndexOfKey(obj, k)
    case Some(i) =>
      var r := obj[i := (k, v)];
      assert DistinctKeys(r);
      GetDistinct(r, i);
      forall k' | k' != k ensures Get(r, k') == Get(obj, k') {
        AssignKeepsOthers(obj, i, v, k');
      }
      r
    case None =>
      var r := obj + [(k, v)];
      assert r[..|obj|] == obj;
      r
  }

  lemma AssignKeepsOthers(obj: Entries, i: nat, v: string, k': string)
    requires DistinctKeys(obj) && i < |obj| && k' != obj[i].0
    ensures Get(obj[i := (obj[i].0, v)], k') == Get(obj, k')
  {
    var r := obj[i := (obj[i].0, v)];
    GetFound(obj, k');
    GetFound(r, k');
    if Get(obj, k').Some? {
      var j :| 0 <= j < |obj| && obj[j] == (k', Get(obj, k').value);
      GetDistinct(obj, j);
      GetDistinct(r, j);
    }
  }

  /** `{...obj, ...src}` onto an object with distinct keys: every property of
      `src` overrides, all others stay. */
  function Spread(obj: Entries, src: Entries): (r: Entries)
    requires DistinctKeys(obj)
    ensures DistinctKeys(r)
    ensures forall k :: Get(r, k) == if Get(src, k).Some? then Get(src, k) else Get(obj, k)
    decreases |src|
  {
    if |src| == 0 then obj
    else Assign(Spread(obj, src[..|src| - 1]), src[|src| - 1].0, src[|src| - 1].1)
  }

  /** The two dependency maps of a parsed `package.json`; a missing map is
      empty. Values are the `String(...)` of what the manifest holds. */
  datatype PackageJson = PackageJson(dependencies: Entries, devDependencies: Entries)

  /** `{ ...dependencies, ...devDependencies }`: a devDependency overrides a
      dependency of the same name. */
  function MergedDependencies(pkg: PackageJson): (r: Entries)
    ensures DistinctKeys(r)
    ensures forall k :: Get(r, k) == if Get(pkg.devDependencies, k).Some? then Get(pkg.devDependencies, k)
                                    else Get(pkg.dependencies, k)
  {
    Spread(Spread([], pkg.dependencies), pkg.devDependencies)
  }

  function NpmEntry(manifestPath: string, name: string, raw: string): DependencyUpdate {
    DependencyUpdate(name, StripVersionPrefix(raw), "", Npm, manifestPath)
  }

  /** The entries, in order, whose stripped version is valid. */
  function NpmFromEntries(manifestPath: string, es: Entries): (r: seq<DependencyUpdate>)
    ensures |r| <= |es|
    decreases |es|
  {
    if |es| == 0 then []
    else
      var n := |es| - 1;
      var d := NpmEntry(manifestPath, es[n].0, es[n].1);
      NpmFromEntries(manifestPath, es[..n]) + if Valid(d.currentVersion) then [d] else []
  }

  /** Entries are turned into updates one by one, in order: the updates of
      two runs of entries are those of the first run, then those of the
      second. */
  lemma {:induction false} NpmFromEntriesAppend(manifestPath: string, a: Entries, b: Entries)
    ensures NpmFromEntries(manifestPath, a + b) == NpmFromEntries(manifestPath, a) + NpmFromEntries(manifestPath, b)
    decreases |b|
  {
    if |b| == 0 {
      assert a + b == a;
    } else {
      var n := |b| - 1;
      var ab := a + b;
      assert ab[..|ab| - 1] == a + b[..n] && ab[|ab| - 1] == b[n];
      NpmFromEntriesLast(manifestPath, ab);
      NpmFromEntriesLast(manifestPath, b);
      NpmFromEntriesAppend(manifestPath, a, b[..n]);
    }
  }

  /** The last entry is taken on its own, after the ones before it. */
  lemma NpmFromEntriesLast(manifestPath: string, es: Entries)
    requires |es| > 0
    ensures NpmFromEntries(manifestPath, es)
         == NpmFromEntries(manifestPath, es[..|es| - 1]) + NpmFromEntries(manifestPath, [es[|es| - 1]])
  {
    assert [es[|es| - 1]][..0] == [];
  }

  /** One entry gives its update when the stripped version is valid, and
      nothing otherwise. */
  lemma NpmFromEntriesOne(manifestPath: string, name: string, version: string)
    ensures var d := NpmEntry(manifestPath, name, version);
            NpmFromEntries(manifestPath, [(name, version)]) == if Valid(d.currentVersion) then [d] else []
  {
    assert [(name, version)][..0] == [];
  }

  /** Over entries with distinct keys, an update is kept exactly when it is the
      entry of its name and its version is valid. */
  lemma {:induction false} NpmFromEntriesMembers(manifestPath: string, es: Entries, d: DependencyUpdate)
    requires DistinctKeys(es)
    ensures d in NpmFromEntries(manifestPath, es) <==>
              && Get(es, d.name).Some?
              && d == NpmEntry(manifestPath, d.name, Get(es, d.name).value)
              && Valid(d.currentVersion)
    decreases |es|
  {
    if |es| > 0 {
      var n := |es| - 1;
      var front := es[..n];
      var last := NpmEntry(manifestPath, es[n].0, es[n].1);
      DistinctKeysPrefix(es, n);
      NpmFromEntriesMembers(manifestPath, front, d);
      NpmFromEntriesSnoc(manifestPath, es, d);
      if d.name == es[n].0 {
        DistinctKeysLast(es, d.name);
      }
    }
  }

  lemma NpmFromEntriesSnoc(manifestPath: string, es: Entries, d: DependencyUpdate)
    requires |es| > 0
    ensures var n := |es| - 1;
            var last := NpmEntry(manifestPath, es[n].0, es[n].1);
            && (d in NpmFromEntries(manifestPath, es) <==>
                  d in NpmFromEntries(manifestPath, es[..n]) || (Valid(last.currentVersion) && d == last))
            && Get(es, d.name) == if d.name == es[n].0 then Some(es[n].1) else Get(es[..n], d.name)
  {
  }

  /** With distinct keys, the last entry's key appears nowhere before it. */
  lemma DistinctKeysLast(es: Entries, k: string)
    requires DistinctKeys(es) && |es| > 0 && es[|es| - 1].0 == k
    ensures Get(es[..|es| - 1], k).None?
  {
    var front := es[..|es| - 1];
    forall i | 0 <= i < |front| ensures front[i].0 != k {
      assert front[i] == es[i];
    }
    GetMissing(front, k);
  }

  lemma DistinctKeysPrefix(es: Entries, n: nat)
    requires DistinctKeys(es) && n <= |es|
    ensures DistinctKeys(es[..n])
  {
    var front := es[..n];
    forall i, j | 0 <= i < j < |front| ensures front[i].0 != front[j].0 {
      assert front[i] == es[i] && front[j] == es[j];
    }
  }

  lemma {:induction false} GetMissing(es: Entries, k: string)
    requires forall i :: 0 <= i < |es| ==> es[i].0 != k
    ensures Get(es, k).None?
    decreases |es|
  {
    if |es| > 0 {
      GetMissing(es[..|es| - 1], k);
    }
  }

  /** `parseNpmDependencies`: one entry per merged name whose stripped version
      is valid, and nothing else. */
  function ParseNpmDependencies(manifestPath: string, pkg: PackageJson): (r: seq<DependencyUpdate>)
    ensures forall d :: d in r <==>
              && Get(MergedDependencies(pkg), d.name).Some?
              && d == NpmEntry(manifestPath, d.name, Get(MergedDependencies(pkg), d.name).value)
              && Valid(d.currentVersion)
  {
    var merged := MergedDependencies(pkg);
    forall d {
      NpmFromEntriesMembers(manifestPath, merged, d);
    }
    NpmFromEntries(manifestPath, merged)
  }

  /** Every npm entry is a fresh skeleton of its own manifest: kind npm, no
      latest version, and a devDependency's version wins over a dependency's. */
  lemma NpmEntryShape(manifestPath: string, pkg: PackageJson, d: DependencyUpdate)
    requires d in ParseNpmDependencies(manifestPath, pkg)
    ensures d.kind == Npm && d.manifestPath == manifestPath && d.latestVersion == ""
    ensures Get(pkg.devDependencies, d.name).Some? ==>
              d.currentVersion == StripVersionPrefix(Get(pkg.devDependencies, d.name).value)
    ensures Get(pkg.devDependencies, d.name).None? ==>
              Get(pkg.dependencies, d.name).Some?
              && d.currentVersion == StripVersionPrefix(Get(pkg.dependencies, d.name).value)
  {
  }

  // ----- pypi: requirements files -----

  /** The lines the requirements parser keeps: non-empty, not a comment, and
      holding `==`. */
  predicate IsRequirementLine(l: string) {
    l != [] && !StartsWith(l, "#") && Contains(l, "==")
  }

  /** Trims every raw line and keeps the requirement lines, in order. */
  function RequirementLines(raws: seq<string>): (r: seq<string>)
    ensures forall l :: l in r ==> IsRequirementLine(l) && exists raw :: raw in raws && l == Trim(raw)
    ensures forall raw :: raw in raws && IsRequirementLine(Trim(raw)) ==> Trim(raw) in r
    ensures |r| <= |raws|
    decreases |raws|
  {
    if |raws| == 0 then []
    else
      var l := Trim(raws[0]);
      var rest := RequirementLines(raws[1..]);
      assert forall raw :: raw in raws <==> raw == raws[0] || raw in raws[1..];
      (if IsRequirementLine(l) then [l] else []) + rest
  }

  /** The raw lines are read one by one, in order: the requirement lines of
      two runs of raw lines are those of the first run, then those of the
      second. */
  lemma RequirementLinesAppend(a: seq<string>, b: seq<string>)
    ensures RequirementLines(a + b) == RequirementLines(a) + RequirementLines(b)
  {
    forall x: string, rest: seq<string>
      ensures RequirementLines([x] + rest) == RequirementLines([x]) + RequirementLines(rest)
    {
      assert ([x] + rest)[0] == x && ([x] + rest)[1..] == rest;
      RequirementLinesFirst([x] + rest);
    }
    FirstThenRest(RequirementLines, _ => true, a, b);
  }

  /** The first raw line is read on its own, before the rest. */
  lemma RequirementLinesFirst(raws: seq<string>)
    requires |raws| > 0
    ensures RequirementLines(raws) == RequirementLines([raws[0]]) + RequirementLines(raws[1..])
  {
    var l := Trim(raws[0]);
    assert RequirementLines(raws) == (if IsRequirementLine(l) then [l] else []) + RequirementLines(raws[1..]);
    RequirementLinesOne(raws[0]);
  }

  /** One raw line gives its trimmed text when that is a requirement line,
      and nothing otherwise. */
  lemma RequirementLinesOne(raw: string)
    ensures RequirementLines([raw]) == if IsRequirementLine(Trim(raw)) then [Trim(raw)] else []
  {
    var raws := [raw];
    assert raws[0] == raw && raws[1..] == [];
    assert RequirementLines(raws[1..]) == [];
  }

  /** One requirement line: `line.split('==')` destructured into its first
      two pieces, the name and the version. */
  function RequirementEntry(manifestPath: string, l: string): (d: DependencyUpdate)
    requires Contains(l, "==")
    ensures d.kind == Pypi && d.manifestPath == manifestPath && d.latestVersion == ""
  {
    SplitAtFirst(l, "==");
    var parts := Split(l, "==");
    DependencyUpdate(parts[0], parts[1], "", Pypi, manifestPath)
  }

  /** The name is the text before the first `==`, the version the text
      between the first and the second `==` (or the end of the line); any
      further pieces are dropped. */
  lemma RequirementEntryParts(manifestPath: string, l: string)
    requires Contains(l, "==")
    ensures var d := RequirementEntry(manifestPath, l);
            && d.name == l[..IndexOf(l, "==").value]
            && !Contains(d.name, "==") && !Contains(d.currentVersion, "==")
            && StartsWith(l, d.name + "==" + d.currentVersion)
            && var n := |d.name| + 2 + |d.currentVersion|; n == |l| || StartsWith(l[n..], "==")
  {
    RequirementEntryPieces(manifestPath, l);
    RequirementEntryLayout(manifestPath, l);
  }

  lemma RequirementEntryPieces(manifestPath: string, l: string)
    requires Contains(l, "==")
    ensures var d := RequirementEntry(manifestPath, l);
            !Contains(d.name, "==") && !Contains(d.currentVersion, "==")
  {
    SplitAtFirst(l, "==");
    SplitPieces(l, "==");
  }

  lemma RequirementEntryLayout(manifestPath: string, l: string)
    requires Contains(l, "==")
    ensures var d := RequirementEntry(manifestPath, l);
            && d.name == l[..IndexOf(l, "==").value]
            && StartsWith(l, d.name + "==" + d.currentVersion)
            && var n := |d.name| + 2 + |d.currentVersion|; n == |l| || StartsWith(l[n..], "==")
  {
    var d := RequirementEntry(manifestPath, l);
    var i := IndexOf(l, "==").value;
    var rest := l[i + 2..];
    SplitSecond(l, "==");
    assert l[i..i + 2] == "==";
    match IndexOf(rest, "==")
    case Some(j) =>
      assert d.currentVersion == rest[..j];
      PieceLayout(l, i, "==", rest[..j]);
      OccurrenceInSuffix(l, "==", i + 2, j);
    case None =>
      assert d.currentVersion == rest;
      PieceLayout(l, i, "==", rest);
  }

  function RequirementEntries(manifestPath: string, lines: seq<string>): (r: seq<DependencyUpdate>)
    requires forall l :: l in lines ==> Contains(l, "==")
    ensures forall d :: d in r ==> Valid(d.currentVersion)
                                   && exists l :: l in lines && Contains(l, "==") && d == RequirementEntry(manifestPath, l)
    ensures forall l :: l in lines && Contains(l, "==") && Valid(RequirementEntry(manifestPath, l).currentVersion)
                        ==> RequirementEntry(manifestPath, l) in r
    ensures |r| <= |lines|
    decreases |lines|
  {
    if |lines| == 0 then []
    else
      var d := RequirementEntry(manifestPath, lines[0]);
      var rest := RequirementEntries(manifestPath, lines[1..]);
      assert forall l :: l in lines <==> l == lines[0] || l in lines[1..];
      (if Valid(d.currentVersion) then [d] else []) + rest
  }

  /** The lines become updates one by one, in order: the updates of two runs
      of lines are those of the first run, then those of the second. */
  lemma RequirementEntriesAppend(manifestPath: string, a: seq<string>, b: seq<string>)
    requires forall l :: l in a ==> Contains(l, "==")
    requires forall l :: l in b ==> Contains(l, "==")
    ensures forall l :: l in a + b ==> Contains(l, "==")
    ensures RequirementEntries(manifestPath, a + b)
         == RequirementEntries(manifestPath, a) + RequirementEntries(manifestPath, b)
  {
    var f := (ls: seq<string>) =>
      if forall l :: l in ls ==> Contains(l, "==") then RequirementEntries(manifestPath, ls) else [];
    forall x: string, rest: seq<string> | Contains(x, "==") && forall l :: l in rest ==> Contains(l, "==")
      ensures f([x] + rest) == f([x]) + f(rest)
    {
      var xs := [x] + rest;
      assert xs[0] == x && xs[1..] == rest;
      assert forall l :: l in xs ==> Contains(l, "==");
      RequirementEntriesFirst(manifestPath, xs);
    }
    FirstThenRest(f, l => Contains(l, "=="), a, b);
  }

  /** The first line is taken on its own, before the rest. */
  lemma RequirementEntriesFirst(manifestPath: string, lines: seq<string>)
    requires |lines| > 0 && forall l :: l in lines ==> Contains(l, "==")
    ensures RequirementEntries(manifestPath, lines)
         == RequirementEntries(manifestPath, [lines[0]]) + RequirementEntries(manifestPath, lines[1..])
  {
    var d := RequirementEntry(manifestPath, lines[0]);
    assert RequirementEntries(manifestPath, lines)
        == (if Valid(d.currentVersion) then [d] else []) + RequirementEntries(manifestPath, lines[1..]);
    RequirementEntriesOne(manifestPath, lines[0]);
  }

  /** One requirement line gives its update when the version is valid, and
      nothing otherwise. */
  lemma RequirementEntriesOne(manifestPath: string, l: string)
    requires Contains(l, "==")
    ensures var d := RequirementEntry(manifestPath, l);
            RequirementEntries(manifestPath, [l]) == if Valid(d.currentVersion) then [d] else []
  {
    assert [l][1..] == [];
  }

  /** `parsePythonRequirements` on the file's text. */
  function ParsePythonRequirements(manifestPath: string, text: string): (r: seq<DependencyUpdate>)
    ensures forall d :: d in r ==> d.kind == Pypi && d.manifestPath == manifestPath && d.latestVersion == ""
                                   && Valid(d.currentVersion)
    ensures forall d :: d in r ==> exists l :: l in RequirementLines(Split(text, "\n")) && Contains(l, "==")
                                               && d == RequirementEntry(manifestPath, l)
    ensures forall l :: l in RequirementLines(Split(text, "\n")) && Contains(l, "==")
                        && Valid(RequirementEntry(manifestPath, l).currentVersion)
                        ==> RequirementEntry(manifestPath, l) in r
  {
    var lines := RequirementLines(Split(text, "\n"));
    RequirementEntries(manifestPath, lines)
  }

  // ----- the upgrade filter -----

  /** One registry call: an answer (the `latest` field, possibly missing) or
      a thrown error. */
  datatype Lookup = Answered(latest: Option<string>) | LookupFailed

  /** What the loop body of `detectUpdates` makes of one dependency: an
      update only for a present, non-empty latest version strictly above the
      current one; a failed call or a failed comparison skips it. */
  function UpgradeOf(dep: DependencyUpdate, lookup: Lookup): (r: Option<DependencyUpdate>)
    ensures r.Some? <==> && lookup.Answered? && lookup.latest.Some? && lookup.latest.value != ""
                         && Lt(dep.currentVersion, lookup.latest.value) == Some(true)
    ensures r.Some? ==> r.value == dep.(latestVersion := lookup.latest.value)
  {
    match lookup
    case LookupFailed => None
    case Answered(None) => None
    case Answered(Some(latest)) =>
      if latest == "" then None
      else
        match Lt(dep.currentVersion, latest)
        case None => None
        case Some(older) => if older then Some(dep.(latestVersion := latest)) else None
  }

  /** An equal or older latest version yields nothing. */
  lemma NoUpgradeUnlessNewer(dep: DependencyUpdate, latest: string)
    requires Valid(dep.currentVersion) && Valid(latest)
    requires !Precedes(Parse(dep.currentVersion).value, Parse(latest).value)
    ensures UpgradeOf(dep, Answered(Some(latest))).None?
  {
  }

  /** The registry answering 1.3.0 for a dependency at 1.2.0 yields an update to
      1.3.0; answering 1.1.0 yields nothing. */
  lemma UpgradeExamples(dep: DependencyUpdate)
    requires dep.currentVersion == "1.2.0"
    ensures UpgradeOf(dep, Answered(Some("1.3.0"))) == Some(dep.(latestVersion := "1.3.0"))
    ensures UpgradeOf(dep, Answered(Some("1.1.0"))) == None
  {
    SemVer.UpgradeExamples();
  }

  /** The result of the loop over all dependencies, as a function. */
  function Select(deps: seq<DependencyUpdate>, lookups: seq<Lookup>): seq<DependencyUpdate>
    requires |lookups| == |deps|
    decreases |deps|
  {
    if |deps| == 0 then []
    else
      var n := |deps| - 1;
      Select(deps[..n], lookups[..n]) + match UpgradeOf(deps[n], lookups[n])
                                        case Some(u) => [u]
                                        case None => []
  }

  /** The indices of the dependencies that produce an update, in order. */
  function Kept(deps: seq<DependencyUpdate>, lookups: seq<Lookup>): (ks: seq<nat>)
    requires |lookups| == |deps|
    ensures forall j :: 0 <= j < |ks| ==> ks[j] < |deps|
    decreases |deps|
  {
    if |deps| == 0 then []
    else
      var n := |deps| - 1;
      var ks := Kept(deps[..n], lookups[..n]);
      ks + if UpgradeOf(deps[n], lookups[n]).Some? then [n] else []
  }

  /** The kept indices ascend strictly. */
  lemma {:induction false} KeptAscending(deps: seq<DependencyUpdate>, lookups: seq<Lookup>)
    requires |lookups| == |deps|
    ensures forall j, k :: 0 <= j < k < |Kept(deps, lookups)| ==> Kept(deps, lookups)[j] < Kept(deps, lookups)[k]
    decreases |deps|
  {
    if |deps| > 0 {
      var n := |deps| - 1;
      KeptAscending(deps[..n], lookups[..n]);
      var ks0 := Kept(deps[..n], lookups[..n]);
      var ks := Kept(deps, lookups);
      forall j, k | 0 <= j < k < |ks| ensures ks[j] < ks[k] {
        assert ks[j] == ks0[j];
        if k < |ks0| {
          assert ks[k] == ks0[k];
        } else {
          assert ks[k] == n;
        }
      }
    }
  }

  /** A dependency is kept exactly when its lookup yields an upgrade. */
  lemma {:induction false} KeptMembers(deps: seq<DependencyUpdate>, lookups: seq<Lookup>, i: nat)
    requires |lookups| == |deps| && i < |deps|
    ensures i in Kept(deps, lookups) <==> UpgradeOf(deps[i], lookups[i]).Some?
    decreases |deps|
  {
    var n := |deps| - 1;
    var ks0 := Kept(deps[..n], lookups[..n]);
    var last: seq<nat> := if UpgradeOf(deps[n], lookups[n]).Some? then [n] else [];
    assert Kept(deps, lookups) == ks0 + last;
    if i < n {
      KeptMembers(deps[..n], lookups[..n], i);
      assert deps[..n][i] == deps[i] && lookups[..n][i] == lookups[i];
      assert i !in last;
    } else {
      assert forall j :: 0 <= j < |ks0| ==> ks0[j] < n;
      assert n !in ks0;
    }
  }

  /** The updates are an order-preserving subsequence of the dependencies:
      the j-th update is the upgrade of the j-th kept dependency. */
  lemma {:induction false} SelectIsSubsequence(deps: seq<DependencyUpdate>, lookups: seq<Lookup>)
    requires |lookups| == |deps|
    ensures |Select(deps, lookups)| == |Kept(deps, lookups)|
    ensures forall j :: 0 <= j < |Kept(deps, lookups)| ==>
              Some(Select(deps, lookups)[j]) == UpgradeOf(deps[Kept(deps, lookups)[j]], lookups[Kept(deps, lookups)[j]])
    decreases |deps|
  {
    if |deps| > 0 {
      var n := |deps| - 1;
      var dp, lp := deps[..n], lookups[..n];
      SelectIsSubsequence(dp, lp);
      var ks0, s0 := Kept(dp, lp), Select(dp, lp);
      var ks, s := Kept(deps, lookups), Select(deps, lookups);
      assert ks[..|ks0|] == ks0;
      assert s[..|s0|] == s0;
      forall j | 0 <= j < |ks| ensures Some(s[j]) == UpgradeOf(deps[ks[j]], lookups[ks[j]]) {
        if j < |ks0| {
          assert s[j] == s0[j] && ks[j] == ks0[j];
          assert dp[ks0[j]] == deps[ks0[j]] && lp[ks0[j]] == lookups[ks0[j]];
        } else {
          assert ks[j] == n;
        }
      }
    }
  }

  /** Every update selected names a non-empty latest version strictly above
      its current one. */
  lemma {:induction false} SelectOnlyUpgrades(deps: seq<DependencyUpdate>, lookups: seq<Lookup>)
    requires |lookups| == |deps|
    ensures forall u :: u in Select(deps, lookups) ==>
              u.latestVersion != "" && Lt(u.currentVersion, u.latestVersion) == Some(true)
    decreases |deps|
  {
    if |deps| > 0 {
      var n := |deps| - 1;
      SelectOnlyUpgrades(deps[..n], lookups[..n]);
    }
  }

  /** `detectUpdates` after manifest discovery: the registry is asked about each
      dependency in turn and the upgrades are collected in order. */
  method DetectUpdates(deps: seq<DependencyUpdate>, lookups: seq<Lookup>) returns (results: seq<DependencyUpdate>)
    requires |lookups| == |deps|
    ensures results == Select(deps, lookups)
  {
    results := [];
    var i := 0;
    while i < |deps|
      invariant 0 <= i <= |deps|
      invariant results == Select(deps[..i], lookups[..i])
    {
      assert deps[..i + 1][..i] == deps[..i] && lookups[..i + 1][..i] == lookups[..i];
      match UpgradeOf(deps[i], lookups[i]) {
        case Some(u) =>
          results := results + [u];
        case None =>
      }
      i := i + 1;
    }
    assert deps[..i] == deps && lookups[..i] == lookups;
  }

  // ----- simulating one upgrade -----

  /** `simulateUpgrade`, with the fresh id and the clock passed in: no incident
      unless the sandbox crashed, and then a DETECTED record of the update and
      its crash evidence. */
  function SimulateUpgrade(m: Matchers, projectCommand: string, u: DependencyUpdate, exec: ExecOutcome,
                           id: string, now: string): (r: Option<IncidentRecord>)
    ensures r.None? <==> exec.Exited?
    ensures r.Some? ==> r.value.status == Detected && r.value.dependency == u && r.value.id == id
                        && r.value.createdAt == now
    ensures r.Some? ==> var s := RunSandbox(m, u, projectCommand, exec);
                        && r.value.stacktrace == s.stacktrace.GetOr(s.stderr)
                        && r.value.file == s.file && r.value.line == s.line && r.value.api == s.api
                        && r.value.command == s.command && r.value.exitCode == s.exitCode
                        && r.value.stdout == s.stdout && r.value.stderr == s.stderr
  {
    var s := RunSandbox(m, u, projectCommand, exec);
    if !s.crashed then None
    else Some(IncidentRecord(id, u, s.stacktrace.GetOr(s.stderr), s.file, s.line, s.api, s.command,
                             s.exitCode, s.stdout, s.stderr, now, Detected))
  }

  /** The stderr fallback for the stack trace is never used: a crashed run
      always carries a parsed stack, taken from stderr. */
  lemma IncidentStackFromStderr(m: Matchers, projectCommand: string, u: DependencyUpdate, exec: ExecOutcome,
                                id: string, now: string)
    requires SimulateUpgrade(m, projectCommand, u, exec, id, now).Some?
    ensures var r := SimulateUpgrade(m, projectCommand, u, exec, id, now).value;
            r.stacktrace == ParseStack(m, r.stderr).value.stack
            && r.command == ShellCommand(u, projectCommand)
  {
  }

  /** Output without a newline is one line (when not empty). */
  lemma SingleLineOutput(output: string)
    requires output != [] && '\n' !in output
    ensures OutputLines(output) == [output]
  {
    forall j | 0 <= j <= |output| ensures !IsOccurrence(output, "\n", j) {
      CharOccurrence(output, '\n', j);
    }
    assert Split(output, "\n") == [output];
  }

  /** A crash whose stderr is one line that the path:line matcher reads as
      `file` and `n` is recorded with that file and line, no API, and that
      line as its stack. */
  lemma OneLineCrash(m: Matchers, projectCommand: string, u: DependencyUpdate, id: string, now: string,
                     line: string, exitCode: Option<int>, file: string, n: int)
    requires line != [] && '\n' !in line
    requires m.pathLine(line) == Some((file, n))
    ensures var r := SimulateUpgrade(m, projectCommand, u, Threw(None, Some(line), exitCode), id, now);
            && r.Some? && r.value.file == Some(file) && r.value.line == Some(n) && r.value.api.None?
            && r.value.stacktrace == line
  {
    OneLineStack(m, line, file, n);
    var s := RunSandbox(m, u, projectCommand, Threw(None, Some(line), exitCode));
    assert s.stderr == line;
    assert s.stacktrace == Some(line) && s.file == Some(file) && s.line == Some(n) && s.api == None;
  }

  /** The stack parsed from a one-line output that the path:line matcher reads. */
  lemma OneLineStack(m: Matchers, line: string, file: string, n: int)
    requires line != [] && '\n' !in line
    requires m.pathLine(line) == Some((file, n))
    ensures ParseStack(m, line) == Some(StackInfo(line, Some(file), Some(n), None))
  {
    SingleLineOutput(line);
    assert Scan(m, [line]) == PathLine(file, n);
    assert Tail([line], StackDepth) == [line];
    assert Join([line], "\n") == line;
  }
}
