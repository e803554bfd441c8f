/** The mission branch planner, `planMissionBranch`. */
module BranchPlanning {
  import opened Common
  import opened BranchNames
  import opened WorktreePaths

  datatype Refs = Refs(local: seq<string>, remote: seq<string>, merged: seq<string>, checkedOut: seq<string>)

  datatype Input = Input(
    mission: Mission,
    projectSlug: string,
    resourceKey: string,
    recordedBranch: Option<string>,
    base: string,
    refs: Refs,
    worktreeRoot: string,
    overrideBranch: Option<string>)

  datatype Decision =
    | Reuse(branch: string, worktreePath: string, baseBranch: string, cycle: int)
    | Create(branch: string, worktreePath: string, baseBranch: string, cycle: int, from: string)
    | NewCycle(branch: string, worktreePath: string, baseBranch: string, cycle: int, from: string)

  /** An optional string that is given and not empty. */
  predicate Given(o: Option<string>) {
    o.Some? && o.value != ""
  }

  function WithoutPrefix(s: string, prefix: string): string {
    if prefix <= s then s[|prefix|..] else s
  }

  function NormalizeRemoteRef(ref: string): string {
    WithoutPrefix(WithoutPrefix(WithoutPrefix(ref, "origin/"), "refs/heads/"), "refs/remotes/origin/")
  }

  function RefSet(refs: seq<string>): set<string> {
    (set ref | ref in refs :: NormalizeRemoteRef(ref)) - {""}
  }

  function AllRefs(refs: Refs): set<string> {
    RefSet(refs.local + refs.remote)
  }

  function CycleName(branch: string, cycle: nat): string {
    branch + "-" + Decimal(cycle)
  }

  /** The number of a ref of the form branch-digits. */
  function CycleNumber(branch: string, ref: string): Option<nat> {
    if branch + "-" <= ref && |ref| > |branch| + 1 && AllDigits(ref[|branch| + 1..])
    then Some(Digits(ref[|branch| + 1..])) else None
  }

  function ExistingCycles(branch: string, refs: set<string>): set<int> {
    {if branch in refs then 1 else 0} +
    set ref | ref in refs && CycleNumber(branch, ref).Some? :: CycleNumber(branch, ref).value as int
  }

  /** 0 when there is neither the branch nor a cycle of it. */
  function HighestCycle(branch: string, refs: set<string>): (h: nat)
    ensures branch in refs ==> h >= 1
    ensures forall ref | ref in refs && CycleNumber(branch, ref).Some? :: CycleNumber(branch, ref).value <= h
  {
    var cycles := ExistingCycles(branch, refs);
    assert (if branch in refs then 1 else 0) in cycles;
    assert forall ref | ref in refs && CycleNumber(branch, ref).Some? ::
        CycleNumber(branch, ref).value as int in cycles;
    MaxOf(cycles)
  }

  lemma HasRef(refs: set<string>)
    ensures refs == {} || exists ref :: ref in refs
  {
    if forall ref :: ref !in refs {
      assert refs == {};
    }
  }

  method HighestExistingCycle(branch: string, refs: set<string>) returns (highest: nat)
    ensures highest == HighestCycle(branch, refs)
  {
    highest := if branch in refs then 1 else 0;
    var todo := refs;
    assert ExistingCycles(branch, refs) >= {highest as int};
    while todo != {}
      invariant todo <= refs && highest as int in ExistingCycles(branch, refs)
      invariant branch in refs ==> highest >= 1
      invariant forall ref | ref in refs - todo && CycleNumber(branch, ref).Some? ::
                  CycleNumber(branch, ref).value <= highest
      decreases |todo|
    {
      HasRef(todo);
      var ref :| ref in todo;
      todo := todo - {ref};
      var number := CycleNumber(branch, ref);
      if number.Some? {
        assert number.value as int in ExistingCycles(branch, refs);
        if number.value > highest {
          highest := number.value;
        }
      }
    }
  }

  /** The least cycle from `cycle` on whose name is free. */
  function FirstFree(branch: string, cycle: nat, taken: set<string>): nat
    decreases |taken|
  {
    if CycleName(branch, cycle) in taken
    then FirstFree(branch, cycle + 1, taken - {CycleName(branch, cycle)})
    else cycle
  }

  function NextCycle(branch: string, refs: set<string>): nat {
    if HighestCycle(branch, refs) + 1 > 2 then HighestCycle(branch, refs) + 1 else 2
  }

  function CycleField(m: Mission, branch: string): int {
    var canonical := CanonicalMissionBranch(m);
    var parsed := if canonical + "-" <= branch then ParseInt(branch[|canonical| + 1..]) else Some(1);
    if parsed.Some? && parsed.value > 1 then parsed.value else 1
  }

  function WorktreeOf(input: Input, branch: string): string {
    MissionWorktreePath(input.worktreeRoot, input.projectSlug, input.resourceKey, branch)
  }

  function ReuseOf(input: Input, branch: string): Decision {
    Reuse(branch, WorktreeOf(input, branch), input.base, CycleField(input.mission, branch))
  }

  function CreateOf(input: Input, branch: string): Decision {
    Create(branch, WorktreeOf(input, branch), input.base, CycleField(input.mission, branch), input.base)
  }

  function Taken(refs: Refs): set<string> {
    AllRefs(refs) + RefSet(refs.checkedOut) + RefSet(refs.merged)
  }

  function FreshCycle(input: Input): nat {
    var canonical := CanonicalMissionBranch(input.mission);
    FirstFree(canonical, NextCycle(canonical, AllRefs(input.refs)), Taken(input.refs))
  }

  /** The decision. */
  function Plan(input: Input): Decision {
    var canonical, all := CanonicalMissionBranch(input.mission), AllRefs(input.refs);
    if Given(input.overrideBranch) then
      var name := SanitizeBranchName(input.overrideBranch.value, input.overrideBranch.value);
      if name in all then ReuseOf(input, name) else CreateOf(input, name)
    else if Given(input.recordedBranch) then
      var recorded := NormalizeRemoteRef(input.recordedBranch.value);
      if recorded in all && recorded !in RefSet(input.refs.merged) then ReuseOf(input, recorded)
      else
        var branch := CycleName(canonical, FreshCycle(input));
        NewCycle(branch, WorktreeOf(input, branch), input.base, CycleField(input.mission, branch), input.base)
    else if canonical in all then ReuseOf(input, canonical)
    else CreateOf(input, canonical)
  }

  // ---- the search for a free name -------------------------------------------------------

  lemma CycleNamesDiffer(branch: string, j: nat, k: nat)
    requires CycleName(branch, j) == CycleName(branch, k)
    ensures j == k
  {
    DigitsName(j);
    DigitsName(k);
    LastDashSplits(branch, Decimal(j), branch, Decimal(k));
    DecimalRoundTrip(j);
    DecimalRoundTrip(k);
  }

  lemma CycleNameNumber(branch: string, k: nat)
    ensures CycleNumber(branch, CycleName(branch, k)) == Some(k)
  {
    DecimalRoundTrip(k);
    assert CycleName(branch, k)[|branch| + 1..] == Decimal(k);
    assert CycleName(branch, k)[..|branch| + 1] == branch + "-";
  }

  /** The search finds the least free number and takes at most |taken| steps. */
  lemma {:induction false} FirstFreeIsLeast(branch: string, cycle: nat, taken: set<string>)
    ensures var k := FirstFree(branch, cycle, taken);
            && cycle <= k <= cycle + |taken|
            && CycleName(branch, k) !in taken
            && forall j | cycle <= j < k :: CycleName(branch, j) in taken
    decreases |taken|
  {
    hide CycleName;
    var name := CycleName(branch, cycle);
    if name in taken {
      FirstFreeIsLeast(branch, cycle + 1, taken - {name});
      var k := FirstFree(branch, cycle, taken);
      if CycleName(branch, k) == name {
        CycleNamesDiffer(branch, k, cycle);
      }
    }
  }

  /** The number the search finds is determined by being the least free one. */
  lemma LeastIsFirstFree(branch: string, cycle: nat, taken: set<string>, k: nat)
    requires cycle <= k && CycleName(branch, k) !in taken
    requires forall j | cycle <= j < k :: CycleName(branch, j) in taken
    ensures k == FirstFree(branch, cycle, taken)
  {
    hide CycleName;
    FirstFreeIsLeast(branch, cycle, taken);
  }

  /** Above the highest existing cycle no ref can be in the way, so only merged and checked-out
      names can prolong the search. */
  lemma OnlyMergedOrCheckedOut(branch: string, cycle: nat, all: set<string>, others: set<string>)
    requires cycle > HighestCycle(branch, all)
    ensures FirstFree(branch, cycle, all + others) == FirstFree(branch, cycle, others)
  {
    hide CycleName, HighestCycle;
    FirstFreeIsLeast(branch, cycle, others);
    var k := FirstFree(branch, cycle, others);
    CycleNameNumber(branch, k);
    assert CycleName(branch, k) !in all;
    LeastIsFirstFree(branch, cycle, all + others, k);
  }

  /** The search loop; `turns` counts its tests. */
  method SearchFreeName(branch: string, from: nat, all: set<string>, checkedOut: set<string>, merged: set<string>)
      returns (cycle: nat, ghost turns: nat)
    requires from > HighestCycle(branch, all)
    ensures cycle == FirstFree(branch, from, all + checkedOut + merged)
    ensures turns == cycle - from + 1 <= |merged| + |checkedOut| + 1
  {
    hide CycleName, HighestCycle;
    ghost var taken := all + checkedOut + merged;
    assert taken == all + (checkedOut + merged);
    OnlyMergedOrCheckedOut(branch, from, all, checkedOut + merged);
    FirstFreeIsLeast(branch, from, checkedOut + merged);
    FirstFreeIsLeast(branch, from, taken);
    assert |checkedOut + merged| <= |checkedOut| + |merged|;
    cycle, turns := from, 1;
    var candidate := CycleName(branch, cycle);
    while candidate in all || candidate in checkedOut || candidate in merged
      invariant from <= cycle <= FirstFree(branch, from, taken)
      invariant candidate == CycleName(branch, cycle) && turns == cycle - from + 1
      decreases FirstFree(branch, from, taken) - cycle
    {
      cycle, turns := cycle + 1, turns + 1;
      candidate := CycleName(branch, cycle);
    }
  }

  /** `planMissionBranch` as written, with its two loops. */
  method PlanMissionBranch(input: Input) returns (d: Decision)
    ensures d == Plan(input)
  {
    hide CanonicalMissionBranch, SanitizeBranchName, HighestCycle, FirstFree, WorktreeOf, CycleField, AllRefs, RefSet;
    var canonical := CanonicalMissionBranch(input.mission);
    var all, merged, checkedOut := AllRefs(input.refs), RefSet(input.refs.merged), RefSet(input.refs.checkedOut);
    if Given(input.overrideBranch) {
      var name := SanitizeBranchName(input.overrideBranch.value, input.overrideBranch.value);
      return if name in all then ReuseOf(input, name) else CreateOf(input, name);
    }
    if Given(input.recordedBranch) {
      var recorded := NormalizeRemoteRef(input.recordedBranch.value);
      var isMerged := recorded in merged || recorded !in all;
      if !isMerged {
        return ReuseOf(input, recorded);
      }
    }
    if !Given(input.recordedBranch) {
      return if canonical in all then ReuseOf(input, canonical) else CreateOf(input, canonical);
    }
    var highest := HighestExistingCycle(canonical, all);
    var next := if highest + 1 > 2 then highest + 1 else 2;
    var cycle, turns := SearchFreeName(canonical, next, all, checkedOut, merged);
    var branch := CycleName(canonical, cycle);
    d := NewCycle(branch, WorktreeOf(input, branch), input.base, CycleField(input.mission, branch), input.base);
  }

  // ---- what a plan promises -------------------------------------------------------------

  /** The number `base-k` carries is k, for every k from 2 up. */
  lemma CycleFieldIsExact(m: Mission, k: nat)
    requires k >= 2
    ensures CycleField(m, CycleName(CanonicalMissionBranch(m), k)) == k
  {
    hide CanonicalMissionBranch, Decimal, ParseInt;
    var canonical := CanonicalMissionBranch(m);
    var branch := CycleName(canonical, k);
    assert branch[..|canonical| + 1] == canonical + "-" && branch[|canonical| + 1..] == Decimal(k);
    ParseIntRoundTrip(k);
  }

  /** A recorded branch that is merged or gone gives a new cycle: a name in none of the sets, with
      a number of at least 2 and above every existing cycle, the least free one from there. */
  lemma NewCycleIsFresh(input: Input)
    requires !Given(input.overrideBranch) && Given(input.recordedBranch)
    requires var recorded := NormalizeRemoteRef(input.recordedBranch.value);
             recorded !in AllRefs(input.refs) || recorded in RefSet(input.refs.merged)
    ensures var canonical, k, all := CanonicalMissionBranch(input.mission), FreshCycle(input), AllRefs(input.refs);
            var d := Plan(input);
            && d.NewCycle? && d.branch == CycleName(canonical, k) && d.cycle == k >= 2
            && d.branch !in all && d.branch !in RefSet(input.refs.merged) && d.branch !in RefSet(input.refs.checkedOut)
            && (forall ref | ref in all && CycleNumber(canonical, ref).Some? :: CycleNumber(canonical, ref).value < k)
            && (forall j | NextCycle(canonical, all) <= j < k ::
                  CycleName(canonical, j) in RefSet(input.refs.checkedOut) + RefSet(input.refs.merged))
            && k - NextCycle(canonical, all) <= |RefSet(input.refs.checkedOut)| + |RefSet(input.refs.merged)|
  {
    hide CanonicalMissionBranch, CycleName, FirstFree, WorktreeOf, CycleField, AllRefs, RefSet;
    var canonical, all := CanonicalMissionBranch(input.mission), AllRefs(input.refs);
    var checkedOut, merged := RefSet(input.refs.checkedOut), RefSet(input.refs.merged);
    var next := NextCycle(canonical, all);
    assert all + checkedOut + merged == all + (checkedOut + merged);
    OnlyMergedOrCheckedOut(canonical, next, all, checkedOut + merged);
    FirstFreeIsLeast(canonical, next, checkedOut + merged);
    FirstFreeIsLeast(canonical, next, Taken(input.refs));
    CycleFieldIsExact(input.mission, FreshCycle(input));
    assert |checkedOut + merged| <= |checkedOut| + |merged|;
  }

  /** Whatever the input, a plan says reuse exactly when the branch it names exists. */
  lemma ReuseMeansExists(input: Input)
    ensures Plan(input).Reuse? <==> Plan(input).branch in AllRefs(input.refs)
  {
    hide CanonicalMissionBranch, SanitizeBranchName, CycleName, FirstFree, WorktreeOf, CycleField, AllRefs, RefSet;
    if !Given(input.overrideBranch) && Given(input.recordedBranch) {
      FirstFreeIsLeast(CanonicalMissionBranch(input.mission),
                       NextCycle(CanonicalMissionBranch(input.mission), AllRefs(input.refs)), Taken(input.refs));
    }
  }

  // ---- spellings, recording and previews ------------------------------------------------

  /** The ways git writes a branch that normalising undoes. */
  function Spellings(branch: string): set<string> {
    {branch, "origin/" + branch, "refs/heads/" + branch, "refs/remotes/origin/" + branch}
  }

  lemma PrefixChars(s: string, prefix: string)
    ensures prefix <= s ==> forall c | c in prefix :: c in s
  {
    if prefix <= s {
      forall i | 0 <= i < |prefix| ensures prefix[i] in s { assert s[i] == prefix[i]; }
    }
  }

  lemma PrefixNeedsSlash(s: string, prefix: string)
    requires '/' !in s && '/' in prefix
    ensures WithoutPrefix(s, prefix) == s
  {
    PrefixChars(s, prefix);
  }

  lemma PrefixGoes(s: string, prefix: string)
    ensures WithoutPrefix(prefix + s, prefix) == s
  {
  }

  lemma PrefixStays(head: string, s: string, prefix: string, i: nat)
    requires i < |head| && i < |prefix| && head[i] != prefix[i]
    ensures WithoutPrefix(head + s, prefix) == head + s
  {
    assert (head + s)[i] == head[i];
  }

  /** All four spellings of a name without slashes normalise to it. */
  lemma SpellingsNormalize(branch: string, spelling: string)
    requires '/' !in branch && spelling in Spellings(branch)
    ensures NormalizeRemoteRef(spelling) == branch
  {
    hide WithoutPrefix;
    PrefixNeedsSlash(branch, "origin/");
    PrefixNeedsSlash(branch, "refs/heads/");
    PrefixNeedsSlash(branch, "refs/remotes/origin/");
    PrefixGoes(branch, "origin/");
    PrefixGoes(branch, "refs/heads/");
    PrefixGoes(branch, "refs/remotes/origin/");
    PrefixStays("refs/heads/", branch, "origin/", 0);
    PrefixStays("refs/remotes/origin/", branch, "origin/", 0);
    PrefixStays("refs/remotes/origin/", branch, "refs/heads/", 5);
  }

  lemma CanonicalSpellings(m: Mission, spelling: string)
    requires spelling in Spellings(CanonicalMissionBranch(m))
    ensures NormalizeRemoteRef(spelling) == CanonicalMissionBranch(m)
  {
    hide CanonicalMissionBranch, NormalizeRemoteRef, Spellings, Name;
    CanonicalBranch(m, "");
    NameChars(CanonicalMissionBranch(m));
    SpellingsNormalize(CanonicalMissionBranch(m), spelling);
  }

  /** A branch planned without an override, and not merely taken from the record, is a name. */
  lemma PlannedName(input: Input)
    requires !Given(input.overrideBranch) && (Given(input.recordedBranch) ==> Plan(input).NewCycle?)
    ensures Name(Plan(input).branch)
  {
    hide CanonicalMissionBranch, FirstFree, WorktreeOf, CycleField, AllRefs, RefSet, Name, Decimal;
    var canonical, k := CanonicalMissionBranch(input.mission), FreshCycle(input);
    CanonicalBranch(input.mission, "");
    DigitsName(k);
    JoinedName(canonical, Decimal(k));
  }

  ghost predicate SameMission(a: Input, b: Input) {
    && a.mission == b.mission && a.worktreeRoot == b.worktreeRoot
    && a.projectSlug == b.projectSlug && a.resourceKey == b.resourceKey
  }

  /** Planning again after recording the planned branch, while that branch exists unmerged, names it
      again exactly when the record normalises to it; and then the path and cycle are the same. */
  lemma RecordAndReplan(input: Input, again: Input)
    requires !Given(again.overrideBranch) && Given(again.recordedBranch) && SameMission(input, again)
    requires var branch := Plan(input).branch;
             branch in AllRefs(again.refs) && branch !in RefSet(again.refs.merged)
    ensures var d := Plan(input);
            && (Plan(again).branch == d.branch <==> NormalizeRemoteRef(again.recordedBranch.value) == d.branch)
            && (Plan(again).branch == d.branch ==>
                  Plan(again) == Reuse(d.branch, d.worktreePath, again.base, d.cycle))
  {
    hide CanonicalMissionBranch, SanitizeBranchName, CycleName, AllRefs, RefSet, HighestCycle, FirstFree, CycleField,
         MissionWorktreePath, NormalizeRemoteRef;
    ReuseMeansExists(again);
  }

  /** In particular, a canonical or cycle branch recorded in any of the four spellings is reused. */
  lemma PlannedBranchIsReused(input: Input, again: Input)
    requires !Given(input.overrideBranch) && (Given(input.recordedBranch) ==> Plan(input).NewCycle?)
    requires !Given(again.overrideBranch) && SameMission(input, again)
    requires again.recordedBranch.Some? && again.recordedBranch.value in Spellings(Plan(input).branch)
    requires var branch := Plan(input).branch;
             branch in AllRefs(again.refs) && branch !in RefSet(again.refs.merged)
    ensures var d := Plan(input); Plan(again) == Reuse(d.branch, d.worktreePath, again.base, d.cycle)
  {
    hide Plan, Name, AllRefs, RefSet, NormalizeRemoteRef;
    PlannedName(input);
    NameChars(Plan(input).branch);
    SpellingsNormalize(Plan(input).branch, again.recordedBranch.value);
    RecordAndReplan(input, again);
  }

  /** `previewMissionBranch`. */
  function Preview(input: Input): Decision {
    Plan(input.(recordedBranch := None, overrideBranch := None, refs := Refs([], [], [], [])))
  }

  /** With nothing recorded, the preview names the branch, path and cycle of the plan. */
  lemma PreviewAgrees(input: Input)
    requires !Given(input.overrideBranch) && !Given(input.recordedBranch)
    ensures var p, d := Preview(input), Plan(input);
            && p.branch == d.branch && p.worktreePath == d.worktreePath && p.cycle == d.cycle
            && p.Create? && (p != d ==> d.Reuse?)
  {
    hide CanonicalMissionBranch, MissionWorktreePath, CycleField;
  }

  // ---- overrides that name a directory ----------------------------------------------------

  /** The overrides `.` and `..` are kept as they are, and plan the directory of the project resource, or
      the one above it, as the worktree. */
  lemma DotsAreKept(input: Input, dots: string)
    requires input.overrideBranch == Some(dots) && dots in {".", ".."}
    ensures var (stack, absolute) := Base(input.worktreeRoot, input.projectSlug, input.resourceKey);
            Plan(input).branch == dots && Plan(input).worktreePath == Rendered(Walk(stack, dots, absolute), absolute)
  {
    hide SanitizeBranchName, Base, Rendered, Walk, BranchLeaf, MissionWorktreePath, CycleField, AllRefs;
    DotsFallBack(dots, dots);
    DotLeaf(dots);
    PathIsOneStep(input.worktreeRoot, input.projectSlug, input.resourceKey, dots);
  }
}
