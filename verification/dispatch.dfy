/** Patch dispatch (backend/src/services/clineClient.ts): each patch of a plan
    is posted to the remote patch agent first and applied locally with
    `patch -p0` when that post fails. The post, the dry run and the real apply
    are oracles (`PatchOracle`); the file system is modelled only as far as
    the temporary patch file goes. */
module Dispatch {
  import opened Wrappers
  import opened Strings
  import opened Types

  const PatchFileName: string := ".doctor-patch.diff"

  /** The text of a dry-run failure that means the patch is already in. */
  const AlreadyAppliedMarker: string := "Reversed (or previously applied) patch detected"

  /** Where the patch text is written before `patch` reads it: one fixed file
      under the workspace root, whatever the patch. */
  function TempPath(root: string): string {
    root + "/" + PatchFileName
  }

  /** The dry run's verdict; a failure carries the error's `stderr` and
      `message`. */
  datatype DryRun = DryRunPassed | DryRunFailed(stderr: string, message: string)

  /** What the outside world does with one patch. */
  datatype PatchOracle = PatchOracle(remoteOk: bool, dryRun: DryRun, applyOk: bool)

  /** The observable actions of dispatch, in order. */
  datatype Step =
    | PostMission(mission: string, patch: string)
    | WriteFile(file: string, contents: string)
    | RunPatch(dryRun: bool, file: string, cwd: string)
    | RemoveFile(file: string)

  datatype PatchOutcome = SentRemote | AppliedLocally | AlreadyApplied

  /** The errors `applyPatchLocally` rethrows. The source rethrows the
      `patch` process's own error, which names the temp file; the `path`
      here is the model's label of which plan entry failed, not part of that
      error. */
  datatype DispatchError = DryRunRejected(path: string, message: string) | ApplyFailed(path: string)

  /** The files the steps leave behind: writes set a file, removals delete
      it; what `patch` itself changes in the tree is not tracked. */
  type Files = map<string, string>

  function Apply1(fs: Files, step: Step): Files {
    match step
    case WriteFile(f, c) => fs[f := c]
    case RemoveFile(f) => fs - {f}
    case _ => fs
  }

  function Perform(fs: Files, steps: seq<Step>): Files
    decreases |steps|
  {
    if |steps| == 0 then fs else Perform(Apply1(fs, steps[0]), steps[1..])
  }

  lemma {:induction false} PerformAppend(fs: Files, a: seq<Step>, b: seq<Step>)
    ensures Perform(fs, a + b) == Perform(Perform(fs, a), b)
    decreases |a|
  {
    if |a| == 0 {
      assert a + b == b;
    } else {
      assert (a + b)[1..] == a[1..] + b;
      PerformAppend(Apply1(fs, a[0]), a[1..], b);
    }
  }

  /** The message a failed dry run is judged by: its stderr, or else its
      message. */
  function FailureText(d: DryRun): string
    requires d.DryRunFailed?
  {
    if d.stderr != "" then d.stderr else d.message
  }

  predicate ReportsAlreadyApplied(d: DryRun) {
    d.DryRunFailed? && Contains(FailureText(d), AlreadyAppliedMarker)
  }

  /** `applyPatchLocally`: write the temp file, dry-run, then either treat the
      patch as already applied, give up, or apply it for real. */
  function ApplyLocally(root: string, p: FilePatch, o: PatchOracle): (r: (Result<PatchOutcome, DispatchError>, seq<Step>))
    ensures |r.1| >= 2 && r.1[0] == WriteFile(TempPath(root), p.patch) && r.1[1] == RunPatch(true, TempPath(root), root)
    ensures RunPatch(false, TempPath(root), root) in r.1 <==> o.dryRun.DryRunPassed?
    ensures r.0 == Ok(AlreadyApplied) <==> ReportsAlreadyApplied(o.dryRun)
    ensures r.0 == Ok(AppliedLocally) <==> o.dryRun.DryRunPassed? && o.applyOk
    ensures r.0.Err? && r.0.error.DryRunRejected? <==> o.dryRun.DryRunFailed? && !ReportsAlreadyApplied(o.dryRun)
    ensures r.0.Err? ==> r.0.error.path == p.path
    ensures r.0.Ok? ==> r.0.value != SentRemote
  {
    var tmp := TempPath(root);
    var prefix := [WriteFile(tmp, p.patch), RunPatch(true, tmp, root)];
    match o.dryRun
    case DryRunFailed(_, _) =>
      if ReportsAlreadyApplied(o.dryRun) then (Ok(AlreadyApplied), prefix + [RemoveFile(tmp)])
      else (Err(DryRunRejected(p.path, FailureText(o.dryRun))), prefix)
    case DryRunPassed =>
      (if o.applyOk then Ok(AppliedLocally) else Err(ApplyFailed(p.path)),
       prefix + [RunPatch(false, tmp, root), RemoveFile(tmp)])
  }

  /** The temporary file is left holding the patch exactly when the dry run
      rejected it, and is removed otherwise; no other file changes. */
  lemma ApplyLocallyFiles(root: string, p: FilePatch, o: PatchOracle, fs: Files)
    ensures var r := ApplyLocally(root, p, o);
            Perform(fs, r.1) == if r.0.Err? && r.0.error.DryRunRejected?
                                then fs[TempPath(root) := p.patch]
                                else fs - {TempPath(root)}
  {
    var tmp := TempPath(root);
    var prefix := [WriteFile(tmp, p.patch), RunPatch(true, tmp, root)];
    var fs1 := fs[tmp := p.patch];
    assert Perform(fs, prefix) == fs1 by {
      assert Perform(fs, prefix) == Perform(fs1, prefix[1..]);
      assert Perform(fs1, prefix[1..]) == Perform(fs1, []);
    }
    assert fs1 - {tmp} == fs - {tmp};
    match o.dryRun
    case DryRunFailed(_, _) =>
      if ReportsAlreadyApplied(o.dryRun) {
        PerformAppend(fs, prefix, [RemoveFile(tmp)]);
        assert Perform(fs1, [RemoveFile(tmp)]) == Perform(fs1 - {tmp}, []);
      }
    case DryRunPassed =>
      var tail := [RunPatch(false, tmp, root), RemoveFile(tmp)];
      PerformAppend(fs, prefix, tail);
      assert Perform(fs1, tail) == Perform(fs1, tail[1..]);
      assert Perform(fs1, tail[1..]) == Perform(fs1 - {tmp}, []);
  }

  /** The text of the mission posted for a patch. */
  function Mission(p: FilePatch): string {
    "Apply patch to " + p.path + ": " + p.instructions
  }

  /** The patches from index `i` on, in order; a local failure stops the loop. */
  function DispatchFrom(ps: seq<FilePatch>, root: string, oracle: nat -> PatchOracle, i: nat)
    : (r: (Result<seq<PatchOutcome>, DispatchError>, seq<Step>))
    requires i <= |ps|
    ensures r.0.Ok? ==> |r.0.value| == |ps| - i
    decreases |ps| - i
  {
    if i == |ps| then (Ok([]), [])
    else
      var post := [PostMission(Mission(ps[i]), ps[i].patch)];
      var o := oracle(i);
      if o.remoteOk then
        var rest := DispatchFrom(ps, root, oracle, i + 1);
        (match rest.0
         case Ok(os) => Ok([SentRemote] + os)
         case Err(e) => Err(e),
         post + rest.1)
      else
        var local := ApplyLocally(root, ps[i], o);
        match local.0
        case Err(e) => (Err(e), post + local.1)
        case Ok(out) =>
          var rest := DispatchFrom(ps, root, oracle, i + 1);
          (match rest.0
           case Ok(os) => Ok([out] + os)
           case Err(e) => Err(e),
           post + local.1 + rest.1)
  }

  /** Remote first: a patch whose post succeeded is not applied locally, and
      one whose post failed has the outcome of its local apply. */
  lemma {:induction false} DispatchOutcome(ps: seq<FilePatch>, root: string, oracle: nat -> PatchOracle, i: nat, k: nat)
    requires i + k < |ps|
    requires DispatchFrom(ps, root, oracle, i).0.Ok?
    ensures var os := DispatchFrom(ps, root, oracle, i).0.value;
            if oracle(i + k).remoteOk then os[k] == SentRemote
            else ApplyLocally(root, ps[i + k], oracle(i + k)).0 == Ok(os[k])
    decreases k
  {
    if k > 0 {
      var os := DispatchFrom(ps, root, oracle, i).0.value;
      var rest := DispatchFrom(ps, root, oracle, i + 1);
      assert rest.0.Ok? && os[1..] == rest.0.value;
      DispatchOutcome(ps, root, oracle, i + 1, k - 1);
      assert os[k] == rest.0.value[k - 1];
    }
  }

  /** `dispatchCline`: every patch of the plan, from the first. */
  function DispatchCline(plan: RepairPlan, root: string, oracle: nat -> PatchOracle)
    : (r: (Result<seq<PatchOutcome>, DispatchError>, seq<Step>))
    ensures r.0.Ok? ==> |r.0.value| == |plan.patchset|
    ensures r.0.Ok? ==> forall k :: 0 <= k < |plan.patchset| ==>
                          if oracle(k).remoteOk then r.0.value[k] == SentRemote
                          else r.0.value[k] != SentRemote
  {
    var r := DispatchFrom(plan.patchset, root, oracle, 0);
    assert r.0.Ok? ==> forall k :: 0 <= k < |plan.patchset| ==>
                         if oracle(k).remoteOk then r.0.value[k] == SentRemote else r.0.value[k] != SentRemote by {
      if r.0.Ok? {
        forall k | 0 <= k < |plan.patchset|
          ensures if oracle(k).remoteOk then r.0.value[k] == SentRemote else r.0.value[k] != SentRemote {
          DispatchOutcome(plan.patchset, root, oracle, 0, k);
        }
      }
    }
    r
  }

  // ----- properties of whole dispatches -----

  /** The missions posted, in order. */
  function Posts(steps: seq<Step>): seq<string>
    decreases |steps|
  {
    if |steps| == 0 then []
    else (if steps[0].PostMission? then [steps[0].mission] else []) + Posts(steps[1..])
  }

  lemma {:induction false} PostsAppend(a: seq<Step>, b: seq<Step>)
    ensures Posts(a + b) == Posts(a) + Posts(b)
    decreases |a|
  {
    if |a| == 0 {
      assert a + b == b;
    } else {
      assert (a + b)[1..] == a[1..] + b;
      PostsAppend(a[1..], b);
    }
  }

  lemma LocalStepsPostNothing(root: string, p: FilePatch, o: PatchOracle)
    ensures Posts(ApplyLocally(root, p, o).1) == []
  {
    var steps := ApplyLocally(root, p, o).1;
    assert forall k :: 0 <= k < |steps| ==> !steps[k].PostMission?;
    NoPostsNoMissions(steps);
  }

  lemma {:induction false} NoPostsNoMissions(steps: seq<Step>)
    requires forall k :: 0 <= k < |steps| ==> !steps[k].PostMission?
    ensures Posts(steps) == []
    decreases |steps|
  {
    if |steps| > 0 {
      NoPostsNoMissions(steps[1..]);
    }
  }

  function Missions(ps: seq<FilePatch>): (r: seq<string>)
    ensures |r| == |ps| && forall k :: 0 <= k < |ps| ==> r[k] == Mission(ps[k])
  {
    seq(|ps|, k requires 0 <= k < |ps| => Mission(ps[k]))
  }

  lemma MissionsCons(ps: seq<FilePatch>, i: nat, n: nat)
    requires i < n <= |ps|
    ensures Missions(ps[i..n]) == [Mission(ps[i])] + Missions(ps[i + 1..n])
  {
  }

  /** Patches are posted in patchset order, all of them when dispatch
      succeeds. */
  lemma {:induction false} DispatchPostsAll(ps: seq<FilePatch>, root: string, oracle: nat -> PatchOracle, i: nat)
    requires i <= |ps|
    requires DispatchFrom(ps, root, oracle, i).0.Ok?
    ensures Posts(DispatchFrom(ps, root, oracle, i).1) == Missions(ps[i..])
    decreases |ps| - i
  {
    if i < |ps| {
      var post := [PostMission(Mission(ps[i]), ps[i].patch)];
      var o := oracle(i);
      assert Posts(post) == [Mission(ps[i])];
      var rest := DispatchFrom(ps, root, oracle, i + 1);
      DispatchPostsAll(ps, root, oracle, i + 1);
      MissionsCons(ps, i, |ps|);
      assert ps[i + 1..|ps|] == ps[i + 1..] && ps[i..|ps|] == ps[i..];
      if o.remoteOk {
        PostsAppend(post, rest.1);
      } else {
        var local := ApplyLocally(root, ps[i], o);
        LocalStepsPostNothing(root, ps[i], o);
        PostsAppend(post, local.1);
        PostsAppend(post + local.1, rest.1);
      }
    }
  }

  /** A failed dispatch posted exactly the patches up to and including the
      one whose local apply failed, which is one whose remote post failed:
      later patches are not attempted. */
  lemma {:induction false} DispatchStopsAtFailure(ps: seq<FilePatch>, root: string, oracle: nat -> PatchOracle, i: nat)
    requires i <= |ps|
    requires DispatchFrom(ps, root, oracle, i).0.Err?
    ensures exists n :: && i <= n < |ps| && Posts(DispatchFrom(ps, root, oracle, i).1) == Missions(ps[i..n + 1])
                        && !oracle(n).remoteOk && ApplyLocally(root, ps[n], oracle(n)).0.Err?
    decreases |ps| - i
  {
    var stops := PostsStep(ps, root, oracle, i);
    if stops {
      MissionsCons(ps, i, i + 1);
      assert Missions(ps[i + 1..i + 1]) == [];
      assert Posts(DispatchFrom(ps, root, oracle, i).1) == Missions(ps[i..i + 1]);
    } else {
      DispatchStopsAtFailure(ps, root, oracle, i + 1);
      var n :| && i + 1 <= n < |ps| && Posts(DispatchFrom(ps, root, oracle, i + 1).1) == Missions(ps[i + 1..n + 1])
               && !oracle(n).remoteOk && ApplyLocally(root, ps[n], oracle(n)).0.Err?;
      MissionsCons(ps, i, n + 1);
      assert Posts(DispatchFrom(ps, root, oracle, i).1) == Missions(ps[i..n + 1]);
    }
  }

  /** One step of a failed dispatch: patch `i` is posted and either its
      local apply failed and nothing follows, or the rest failed. */
  lemma PostsStep(ps: seq<FilePatch>, root: string, oracle: nat -> PatchOracle, i: nat) returns (stops: bool)
    requires i <= |ps|
    requires DispatchFrom(ps, root, oracle, i).0.Err?
    ensures i < |ps|
    ensures stops ==> && !oracle(i).remoteOk && ApplyLocally(root, ps[i], oracle(i)).0.Err?
                      && Posts(DispatchFrom(ps, root, oracle, i).1) == [Mission(ps[i])]
    ensures !stops ==> && DispatchFrom(ps, root, oracle, i + 1).0.Err?
                       && Posts(DispatchFrom(ps, root, oracle, i).1)
                          == [Mission(ps[i])] + Posts(DispatchFrom(ps, root, oracle, i + 1).1)
  {
    var post := [PostMission(Mission(ps[i]), ps[i].patch)];
    var o := oracle(i);
    assert Posts(post) == [Mission(ps[i])];
    var local := ApplyLocally(root, ps[i], o);
    LocalStepsPostNothing(root, ps[i], o);
    var rest := DispatchFrom(ps, root, oracle, i + 1);
    stops := !o.remoteOk && local.0.Err?;
    if stops {
      PostsAppend(post, local.1);
    } else if o.remoteOk {
      PostsAppend(post, rest.1);
    } else {
      PostsAppend(post, local.1);
      PostsAppend(post + local.1, rest.1);
    }
  }

  /** The temporary file: a successful dispatch leaves it as it found it or
      removes it; a failed one leaves it holding the rejected patch exactly
      when the dry run rejected it. No other file is touched. */
  lemma {:induction false} DispatchTempFile(ps: seq<FilePatch>, root: string, oracle: nat -> PatchOracle, i: nat, fs: Files)
    requires i <= |ps|
    ensures var r := DispatchFrom(ps, root, oracle, i);
            var after := Perform(fs, r.1);
            && after - {TempPath(root)} == fs - {TempPath(root)}
            && (r.0.Ok? ==> after == fs || after == fs - {TempPath(root)})
            && (r.0.Err? ==> (TempPath(root) in after <==> r.0.error.DryRunRejected?))
    decreases |ps| - i
  {
    if i < |ps| {
      var tmp := TempPath(root);
      var r := DispatchFrom(ps, root, oracle, i);
      var post := [PostMission(Mission(ps[i]), ps[i].patch)];
      var o := oracle(i);
      var rest := DispatchFrom(ps, root, oracle, i + 1);
      assert Perform(fs, post) == fs by {
        assert Perform(fs, post) == Perform(Apply1(fs, post[0]), []);
      }
      if o.remoteOk {
        assert r.1 == post + rest.1;
        PerformAppend(fs, post, rest.1);
        DispatchTempFile(ps, root, oracle, i + 1, fs);
        assert r.0.Err? ==> r.0 == rest.0;
      } else {
        var local := ApplyLocally(root, ps[i], o);
        var mid := Perform(fs, local.1);
        ApplyLocallyFiles(root, ps[i], o, fs);
        PerformAppend(fs, post, local.1);
        if local.0.Err? {
          assert r == (Err(local.0.error), post + local.1);
          assert fs[tmp := ps[i].patch] - {tmp} == fs - {tmp};
        } else {
          assert mid == fs - {tmp};
          assert r.1 == post + local.1 + rest.1;
          assert r.0.Err? ==> r.0 == rest.0;
          PerformAppend(fs, post + local.1, rest.1);
          DispatchTempFile(ps, root, oracle, i + 1, mid);
          assert mid - {tmp} == fs - {tmp};
        }
      }
    }
  }
}
