/** Branch overrides: what a plan does with one, and what sanitising a name leaves of it. */
module BranchOverrides {
  import opened Common
  import opened BranchNames
  import opened WorktreePaths
  import opened BranchPlanning

  /** No two of `c` side by side. */
  predicate NoPair(s: string, c: char) {
    forall i | 0 <= i < |s| - 1 :: !(s[i] == c && s[i + 1] == c)
  }

  lemma {:induction false} SqueezeChars(s: string, hit: char -> bool, one: char, inRun: bool)
    ensures forall c | c in Squeeze(s, hit, one, inRun) :: c == one || (c in s && !hit(c))
  {
    if s != "" {
      SqueezeChars(s[1..], hit, one, hit(s[0]));
      assert s == [s[0]] + s[1..];
    }
  }

  /** What is squeezed together no longer occurs twice in a row. */
  lemma {:induction false} SqueezeUnpairs(s: string, hit: char -> bool, one: char, inRun: bool)
    requires hit(one)
    ensures var r := Squeeze(s, hit, one, inRun); NoPair(r, one) && (inRun && r != "" ==> r[0] != one)
  {
    if s != "" {
      SqueezeUnpairs(s[1..], hit, one, hit(s[0]));
    }
  }

  /** And squeezing something else together brings no pair about. */
  lemma {:induction false} SqueezeKeepsUnpaired(s: string, hit: char -> bool, one: char, inRun: bool, c: char)
    requires NoPair(s, c) && c != one
    ensures var r := Squeeze(s, hit, one, inRun); NoPair(r, c) && (!inRun && r != "" && r[0] == c ==> s[0] == c)
  {
    if s != "" {
      assert NoPair(s[1..], c) by {
        forall i | 0 <= i < |s[1..]| - 1 ensures !(s[1..][i] == c && s[1..][i + 1] == c) {
          assert s[1..][i] == s[i + 1];
        }
      }
      SqueezeKeepsUnpaired(s[1..], hit, one, hit(s[0]), c);
    }
  }

  lemma {:induction false} LeadingKeeps(s: string, atStart: bool, c: char)
    requires NoPair(s, c) && c != '/'
    ensures var r := DropLeading(s, atStart);
            NoPair(r, c) && (!atStart && r != "" ==> r[0] == s[0]) && forall d | d in r :: d in s
  {
    if s != "" {
      assert NoPair(s[1..], c) by {
        forall i | 0 <= i < |s[1..]| - 1 ensures !(s[1..][i] == c && s[1..][i + 1] == c) {
          assert s[1..][i] == s[i + 1];
        }
      }
      if atStart && (s[0] == '.' || s[0] == '-') {
        LeadingKeeps(s[1..], true, c);
      } else {
        LeadingKeeps(s[1..], s[0] == '/', c);
      }
      assert s == [s[0]] + s[1..];
    }
  }

  lemma {:induction false} TrailingIsPrefix(s: string)
    ensures DropTrailing(s) <= s
  {
    if s != "" && s[|s| - 1] in "./-" {
      TrailingIsPrefix(s[..|s| - 1]);
    }
  }

  lemma TailIsPrefix(s: string)
    ensures DropTail(s) <= s
  {
    TrailingIsPrefix(s);
  }

  lemma PrefixUnpaired(s: string, r: string, c: char)
    requires r <= s && NoPair(s, c)
    ensures NoPair(r, c)
  {
    forall i | 0 <= i < |r| - 1 ensures !(r[i] == c && r[i + 1] == c) {
      assert r[i] == s[i] && r[i + 1] == s[i + 1];
    }
  }

  /** Lower case, no backslash, no character that a ref may not hold. */
  predicate RefChar(c: char) { !('A' <= c <= 'Z') && c != '\\' && !IsSpecial(c) }

  lemma LoweredChars(s: string)
    ensures forall c | c in Each(Each(s, LowerChar), ForwardSlash) :: !('A' <= c <= 'Z') && c != '\\'
  {
    var low := Each(s, LowerChar);
    var fwd := Each(low, ForwardSlash);
    forall c | c in fwd ensures !('A' <= c <= 'Z') && c != '\\' {
      var i :| 0 <= i < |fwd| && fwd[i] == c;
      assert fwd[i] == ForwardSlash(low[i]) && low[i] == LowerChar(s[i]);
    }
  }

  lemma PlainSeparators()
    ensures RefChar('/') && RefChar('-')
  {
  }

  /** Whatever goes in, what sanitising makes of it is in lower case, without the characters that a ref may
      not hold, without two slashes in a row and without two dots in a row. */
  lemma SanitizedForm(s: string)
    ensures var r := Sanitized(s); NoPair(r, '/') && NoPair(r, '.') && forall c | c in r :: RefChar(c)
  {
    hide Squeeze, DropLeading, DropTail, Each, NoPair, IsSpace;
    LoweredChars(s);
    var fwd := Each(Each(s, LowerChar), ForwardSlash);
    var slashed := Squeeze(fwd, IsSlash, '/', false);
    SqueezeChars(fwd, IsSlash, '/', false);
    var dotted := Squeeze(slashed, IsDot, '.', false);
    SqueezeChars(slashed, IsDot, '.', false);
    SqueezeUnpairs(slashed, IsDot, '.', false);
    var undotted := DropLeading(dotted, true);
    LeadingKeeps(dotted, true, '.');
    var plain := Squeeze(undotted, IsSpecial, '-', false);
    SqueezeChars(undotted, IsSpecial, '-', false);
    SqueezeKeepsUnpaired(undotted, IsSpecial, '-', false, '.');
    var single := Squeeze(plain, IsSlash, '/', false);
    SqueezeChars(plain, IsSlash, '/', false);
    SqueezeUnpairs(plain, IsSlash, '/', false);
    SqueezeKeepsUnpaired(plain, IsSlash, '/', false, '.');
    TailIsPrefix(single);
    PrefixUnpaired(single, DropTail(single), '/');
    PrefixUnpaired(single, DropTail(single), '.');
    PlainSeparators();
    forall c | c in single ensures RefChar(c) {
      assert c == '/' || c in plain;
      assert c in plain ==> c == '-' || (c in undotted && !IsSpecial(c));
    }
  }

  /** An override decides the branch: its sanitised name, or the override itself when sanitising leaves
      nothing usable. */
  lemma OverridePlanned(input: Input)
    requires Given(input.overrideBranch)
    ensures var d, name := Plan(input), input.overrideBranch.value;
            var r := Sanitized(name);
            && d.branch == (if r == "" || r[0] == '/' || HasAtBrace(r) then name else r)
            && (d.branch != name ==>
                  NoPair(d.branch, '/') && NoPair(d.branch, '.') && forall c | c in d.branch :: RefChar(c))
            && (d.Reuse? <==> d.branch in AllRefs(input.refs)) && !d.NewCycle?
  {
    hide Sanitized, HasAtBrace, WorktreeOf, CycleField, AllRefs, NoPair, RefChar;
    SanitizedForm(input.overrideBranch.value);
  }

  /** Every plan is based on the base branch it was given, starts a new branch from it, and has the worktree
      of its branch under the root, project and resource it was given. */
  lemma PlanFields(input: Input)
    ensures var d := Plan(input);
            && d.baseBranch == input.base && (!d.Reuse? ==> d.from == input.base)
            && d.worktreePath ==
               MissionWorktreePath(input.worktreeRoot, input.projectSlug, input.resourceKey, d.branch)
  {
    hide CanonicalMissionBranch, SanitizeBranchName, MissionWorktreePath, CycleField, AllRefs, RefSet, FirstFree;
  }

  lemma FirstCycle(m: Mission)
    ensures CycleField(m, CanonicalMissionBranch(m)) == 1
  {
    hide CanonicalMissionBranch, ParseInt;
  }

  /** Without an override, a record that still exists unmerged is kept, as it normalises; and without a
      record the branch is the canonical one. */
  lemma PlannedBranch(input: Input)
    requires !Given(input.overrideBranch)
    ensures var d := Plan(input);
            if !Given(input.recordedBranch)
            then d.branch == CanonicalMissionBranch(input.mission) && d.cycle == 1 && !d.NewCycle?
            else var recorded := NormalizeRemoteRef(input.recordedBranch.value);
              if recorded in AllRefs(input.refs) && recorded !in RefSet(input.refs.merged) then d.branch == recorded
              else d.NewCycle? && d.branch == CycleName(CanonicalMissionBranch(input.mission), d.cycle)
  {
    hide CanonicalMissionBranch, FirstFree, WorktreeOf, CycleField, AllRefs, RefSet;
    FirstCycle(input.mission);
    if Plan(input).NewCycle? {
      NewCycleIsFresh(input);
    }
  }

  lemma HighestIsThere(branch: string, refs: set<string>)
    ensures HighestCycle(branch, refs) >= 2 ==>
              exists ref :: ref in refs && CycleNumber(branch, ref) == Some(HighestCycle(branch, refs))
  {
    hide CycleNumber;
  }

  /** Every number from 2 up to that of a new cycle is spoken for: by a merged or a checked-out branch, or by an
      existing cycle of that number or a higher one. */
  lemma LeastNewCycle(input: Input, j: nat)
    requires Plan(input).NewCycle? && 2 <= j < Plan(input).cycle
    ensures var canonical := CanonicalMissionBranch(input.mission);
            || CycleName(canonical, j) in RefSet(input.refs.checkedOut) + RefSet(input.refs.merged)
            || exists ref :: ref in AllRefs(input.refs) && CycleNumber(canonical, ref).Some?
                             && CycleNumber(canonical, ref).value >= j
  {
    hide CanonicalMissionBranch, CycleName, FirstFree, WorktreeOf, CycleField, AllRefs, RefSet;
    NewCycleIsFresh(input);
    var canonical, all := CanonicalMissionBranch(input.mission), AllRefs(input.refs);
    if j < NextCycle(canonical, all) {
      HighestIsThere(canonical, all);
    }
  }

  lemma SlugCharsArePlain()
    ensures forall c | IsSlugChar(c) || c in "-.lock" ::
              LowerChar(c) == c && ForwardSlash(c) == c && !IsSlash(c) && !IsSpecial(c)
  {
  }

  lemma {:induction false} NoDots(s: string, inRun: bool)
    requires '.' !in s
    ensures Squeeze(s, IsDot, '.', inRun) == s
  {
    if s != "" {
      assert s[0] in s && forall c | c in s[1..] :: c in s;
      NoDots(s[1..], false);
    }
  }

  /** One dot between dotless strings stays. */
  lemma {:induction false} OneDotKept(a: string, b: string)
    requires '.' !in a && b != "" && b[0] == '.' && '.' !in b[1..]
    ensures Squeeze(a + b, IsDot, '.', false) == a + b
  {
    if a == "" {
      assert a + b == b;
      NoDots(b[1..], true);
      assert b == ['.'] + b[1..];
    } else {
      assert forall c | c in a[1..] :: c in a;
      OneDotKept(a[1..], b);
      assert (a + b)[1..] == a[1..] + b && a[0] in a;
    }
  }

  lemma LockLeadingKept(s: string)
    requires s != "" && '/' !in s && s[0] != '.' && s[0] != '-'
    ensures DropLeading(s, true) == s
  {
    assert s[0] in s && forall c | c in s[1..] :: c in s;
    LeadingKept(s[1..]);
    assert s == [s[0]] + s[1..];
  }

  /** A `.lock` at the end is taken off. */
  lemma LockGoes(name: string)
    requires Name(name)
    ensures Sanitized(name + ".lock") == name
  {
    hide Squeeze, DropLeading, Each, Name, IsSpace;
    var s := name + ".lock";
    NameChars(name);
    NameKeepsSteps(name);
    assert forall c | c in s :: c in name || c in ".lock";
    SlugCharsArePlain();
    assert forall c | c in s :: LowerChar(c) == c && ForwardSlash(c) == c && !IsSlash(c) && !IsSpecial(c);
    EachKept(s, LowerChar);
    EachKept(s, ForwardSlash);
    NoRuns(s, IsSlash, '/', false);
    OneDotKept(name, ".lock");
    LockLeadingKept(s);
    NoRuns(s, IsSpecial, '-', false);
    assert s[|s| - 5..] == ".lock" && s[..|s| - 5] == name;
  }

  /** So are a dot and a dash. */
  lemma TrailersGo(name: string, tail: string)
    requires Name(name) && tail in {".", "-"}
    ensures Sanitized(name + tail) == name
  {
    hide Squeeze, DropLeading, Each, Name, IsSpace;
    var s := name + tail;
    NameChars(name);
    NameKeepsSteps(name);
    assert forall c | c in s :: c in name || c in tail;
    SlugCharsArePlain();
    assert forall c | c in s :: LowerChar(c) == c && ForwardSlash(c) == c && !IsSlash(c) && !IsSpecial(c);
    EachKept(s, LowerChar);
    EachKept(s, ForwardSlash);
    NoRuns(s, IsSlash, '/', false);
    if tail == "." {
      OneDotKept(name, tail);
    } else {
      NoDots(s, false);
    }
    LockLeadingKept(s);
    NoRuns(s, IsSpecial, '-', false);
    assert s[..|s| - 1] == name && s[|s| - 1] in "./-" && name[|name| - 1] !in "./-";
    assert DropTrailing(name) == name && DropTrailing(s) == DropTrailing(name);
    assert |s| >= 5 ==> s[|s| - 5..] != ".lock" by {
      if |s| >= 5 { assert s[|s| - 5..][4] == tail[0]; }
    }
  }

  /** A plan reuses its branch exactly when a local or a remote ref, however spelt, is that branch. */
  lemma ReuseMeansRef(input: Input)
    ensures var d := Plan(input);
            d.Reuse? <==>
              && d.branch != ""
              && exists ref :: (ref in input.refs.local || ref in input.refs.remote)
                               && NormalizeRemoteRef(ref) == d.branch
  {
    hide Plan, NormalizeRemoteRef;
    ReuseMeansExists(input);
    var d, refs := Plan(input), input.refs.local + input.refs.remote;
    assert forall ref :: ref in refs <==> ref in input.refs.local || ref in input.refs.remote;
    if ref: string :| (ref in input.refs.local || ref in input.refs.remote) && NormalizeRemoteRef(ref) == d.branch {
      assert ref in refs;
    }
  }

  lemma SignsAreNoSpace()
    ensures !IsSpace('-') && !IsSpace('+')
  {
  }

  /** A sign is read: `base--5` is no cycle of base. */
  lemma SignIsRead(n: nat)
    ensures ParseInt("-" + Decimal(n)) == Some(-(n as int)) && ParseInt("+" + Decimal(n)) == Some(n)
  {
    hide Decimal, Digits, IsSpace;
    DecimalRoundTrip(n);
    TakesAllDigits(Decimal(n));
    SignsAreNoSpace();
    assert ("-" + Decimal(n))[1..] == Decimal(n) && ("+" + Decimal(n))[1..] == Decimal(n);
  }
}
