/** Worktree paths: `path.join` on POSIX, and the directory a branch is checked out in. */
module WorktreePaths {
  import opened Common
  import opened BranchNames

  /** The segments between slashes. */
  function Segments(s: string): (r: seq<string>)
    ensures r != []
  {
    if s == "" then [""]
    else
      var rest := Segments(s[1..]);
      if s[0] == '/' then [""] + rest else [[s[0]] + rest[0]] + rest[1..]
  }

  function Joined(parts: seq<string>): string
    requires parts != []
  {
    if |parts| == 1 then parts[0] else parts[0] + "/" + Joined(parts[1..])
  }

  function NonEmpty(parts: seq<string>): seq<string> {
    if parts == [] then [] else (if parts[0] == "" then [] else [parts[0]]) + NonEmpty(parts[1..])
  }

  /** One segment on the path so far: `.` stays, `..` goes up. */
  function Walk(stack: seq<string>, segment: string, absolute: bool): seq<string> {
    if segment == "" || segment == "." then stack
    else if segment != ".." then stack + [segment]
    else if stack != [] && stack[|stack| - 1] != ".." then stack[..|stack| - 1]
    else if absolute then stack
    else stack + [".."]
  }

  function Resolve(segments: seq<string>, absolute: bool, stack: seq<string>): seq<string> {
    if segments == [] then stack else Resolve(segments[1..], absolute, Walk(stack, segments[0], absolute))
  }

  /** The path the walk has come to. */
  function Rendered(stack: seq<string>, absolute: bool): string {
    if stack == [] then (if absolute then "/" else ".")
    else (if absolute then "/" else "") + Joined(stack)
  }

  /** `path.normalize`; the root keeps its one slash. */
  function Normalize(p: string): string {
    if p == "" then "."
    else
      var absolute, trailing := p[0] == '/', p[|p| - 1] == '/';
      var stack := Resolve(Segments(p), absolute, []);
      Rendered(stack, absolute) + (if trailing && !(stack == [] && absolute) then "/" else "")
  }

  /** `path.join`. */
  function PathJoin(parts: seq<string>): string {
    var given := NonEmpty(parts);
    if given == [] then "." else Normalize(Joined(given))
  }

  predicate IsAnySlash(c: char) { c == '/' || c == '\\' }

  function BranchLeaf(branch: string): string {
    var leaf := TrimDashes(Squeeze(branch, IsAnySlash, '-', false));
    if leaf == "" then "branch" else leaf
  }

  function OrProject(s: string): string {
    if s == "" then "project" else s
  }

  function MissionWorktreePath(worktreeRoot: string, projectSlug: string, resourceKey: string, branch: string)
    : string
  {
    PathJoin([worktreeRoot, OrProject(projectSlug), OrProject(Trim(resourceKey)), BranchLeaf(branch)])
  }

  // ---- the path is a parent directory and the leaf ---------------------------------------

  function Prefixed(c: char, rest: seq<string>): seq<string>
    requires rest != []
  {
    if c == '/' then [""] + rest else [[c] + rest[0]] + rest[1..]
  }

  lemma SegmentsStep(c: char, s: string)
    ensures Segments([c] + s) == Prefixed(c, Segments(s))
  {
    assert ([c] + s)[1..] == s;
  }

  lemma PrefixedConcat(c: char, a: seq<string>, b: seq<string>)
    requires a != []
    ensures Prefixed(c, a + b) == Prefixed(c, a) + b
  {
  }

  lemma {:induction false} SegmentsConcat(a: string, b: string)
    ensures Segments(a + "/" + b) == Segments(a) + Segments(b)
  {
    if a == "" {
      assert (a + "/" + b)[1..] == b;
    } else {
      hide Segments, Prefixed;
      var rest := a[1..];
      SegmentsConcat(rest, b);
      assert a == [a[0]] + rest && a + "/" + b == [a[0]] + (rest + "/" + b);
      SegmentsStep(a[0], rest);
      SegmentsStep(a[0], rest + "/" + b);
      PrefixedConcat(a[0], Segments(rest), Segments(b));
    }
  }

  lemma {:induction false} OneSegment(s: string)
    requires '/' !in s
    ensures Segments(s) == [s]
  {
    if s != "" {
      assert s[0] in s && forall c | c in s[1..] :: c in s;
      OneSegment(s[1..]);
      assert [s[0]] + s[1..] == s;
    }
  }

  lemma {:induction false} ResolveConcat(a: seq<string>, b: seq<string>, absolute: bool, stack: seq<string>)
    ensures Resolve(a + b, absolute, stack) == Resolve(b, absolute, Resolve(a, absolute, stack))
  {
    if a == [] {
      assert a + b == b;
    } else {
      ResolveConcat(a[1..], b, absolute, Walk(stack, a[0], absolute));
      assert (a + b)[1..] == a[1..] + b;
    }
  }

  lemma {:induction false} JoinedLast(parts: seq<string>, last: string)
    ensures Joined(parts + [last]) == (if parts == [] then "" else Joined(parts) + "/") + last
  {
    if |parts| > 0 {
      JoinedLast(parts[1..], last);
      assert (parts + [last])[1..] == parts[1..] + [last];
    }
  }

  lemma {:induction false} NonEmptyLast(parts: seq<string>, last: string)
    requires last != ""
    ensures NonEmpty(parts + [last]) == NonEmpty(parts) + [last]
  {
    if |parts| > 0 {
      NonEmptyLast(parts[1..], last);
      assert (parts + [last])[1..] == parts[1..] + [last];
    }
  }

  lemma NonEmptyFirst(first: string, rest: seq<string>)
    ensures NonEmpty([first] + rest) == (if first == "" then [] else [first]) + NonEmpty(rest)
  {
    assert ([first] + rest)[1..] == rest;
  }

  lemma JoinedNonEmpty(parts: seq<string>)
    requires parts != [] && parts[0] != ""
    ensures Joined(parts) != ""
  {
    assert |Joined(parts)| >= |parts[0]|;
  }

  lemma Kept(root: string, slug: string, key: string)
    requires slug != "" && key != ""
    ensures NonEmpty([root, slug, key]) != [] && Joined(NonEmpty([root, slug, key])) != ""
  {
    hide NonEmpty, Joined;
    assert [root, slug, key] == [root] + [slug, key] && [slug, key] == [slug] + [key];
    NonEmptyFirst(root, [slug, key]);
    NonEmptyFirst(slug, [key]);
    JoinedNonEmpty(NonEmpty([root, slug, key]));
  }

  /** The walk to the directory of a project resource, and whether it is absolute. */
  function Base(root: string, slug: string, key: string): (seq<string>, bool) {
    var (s, k) := (OrProject(slug), OrProject(Trim(key)));
    Kept(root, s, k);
    var p := Joined(NonEmpty([root, s, k]));
    (Resolve(Segments(p), p[0] == '/', []), p[0] == '/')
  }

  /** The directory that holds the worktrees of a project resource, with its slash. */
  function ParentOf(root: string, slug: string, key: string): string {
    var (stack, absolute) := Base(root, slug, key);
    (if absolute then "/" else "") + if stack == [] then "" else Joined(stack) + "/"
  }

  lemma ResolveOne(segment: string, absolute: bool, stack: seq<string>)
    ensures Resolve([segment], absolute, stack) == Walk(stack, segment, absolute)
  {
  }

  lemma NormalizedLeaf(p: string, leaf: string)
    requires p != "" && leaf != "" && '/' !in leaf
    ensures Normalize(p + "/" + leaf) ==
            Rendered(Walk(Resolve(Segments(p), p[0] == '/', []), leaf, p[0] == '/'), p[0] == '/')
  {
    hide Resolve, Segments, Joined, Walk, Rendered;
    var q, stack := p + "/" + leaf, Resolve(Segments(p), p[0] == '/', []);
    SegmentsConcat(p, leaf);
    OneSegment(leaf);
    ResolveConcat(Segments(p), [leaf], p[0] == '/', []);
    ResolveOne(leaf, p[0] == '/', stack);
    assert leaf[|leaf| - 1] in leaf && q[|q| - 1] == leaf[|leaf| - 1];
  }

  lemma OrProjectIsNonEmpty(s: string)
    ensures OrProject(s) != ""
  {
  }

  lemma {:induction false} SqueezeRemoves(s: string, hit: char -> bool, one: char, inRun: bool)
    requires !hit(one)
    ensures forall c | c in Squeeze(s, hit, one, inRun) :: !hit(c)
  {
    if s != "" {
      SqueezeRemoves(s[1..], hit, one, hit(s[0]));
    }
  }

  lemma TrimAddsNothing(s: string, c: char)
    requires c !in s
    ensures c !in TrimDashes(s)
  {
    var t := DropFirstDashes(s);
    assert forall x | x in t :: x in s;
    assert forall x | x in DropLastDashes(t) :: x in t;
  }

  lemma LeafHasNoSlash(branch: string)
    ensures BranchLeaf(branch) != "" && '/' !in BranchLeaf(branch)
  {
    hide Squeeze, TrimDashes;
    SqueezeRemoves(branch, IsAnySlash, '-', false);
    TrimAddsNothing(Squeeze(branch, IsAnySlash, '-', false), '/');
    assert '/' !in "branch";
  }

  /** For every branch, the path is one step on from the directory of the project resource. */
  lemma PathIsOneStep(root: string, slug: string, key: string, branch: string)
    ensures var (stack, absolute) := Base(root, slug, key);
            MissionWorktreePath(root, slug, key, branch) ==
            Rendered(Walk(stack, BranchLeaf(branch), absolute), absolute)
  {
    hide Normalize, Resolve, Segments, Joined, NonEmpty, BranchLeaf, OrProject, Trim, Walk, Rendered;
    var s, k, leaf := OrProject(slug), OrProject(Trim(key)), BranchLeaf(branch);
    OrProjectIsNonEmpty(slug);
    OrProjectIsNonEmpty(Trim(key));
    LeafHasNoSlash(branch);
    Kept(root, s, k);
    assert [root, s, k, leaf] == [root, s, k] + [leaf];
    NonEmptyLast([root, s, k], leaf);
    JoinedLast(NonEmpty([root, s, k]), leaf);
    var p := Joined(NonEmpty([root, s, k]));
    assert Joined(NonEmpty([root, s, k]) + [leaf]) == p + "/" + leaf;
    NormalizedLeaf(p, leaf);
  }

  /** What a walk leaves: plain segments, and `..` only on a relative path. */
  ghost predicate Proper(stack: seq<string>, absolute: bool) {
    forall i | 0 <= i < |stack| :: stack[i] !in {"", "."} && '/' !in stack[i] && (absolute ==> stack[i] != "..")
  }

  lemma WalkKeepsProper(stack: seq<string>, segment: string, absolute: bool)
    requires Proper(stack, absolute) && '/' !in segment
    ensures Proper(Walk(stack, segment, absolute), absolute)
  {
  }

  lemma {:induction false} SegmentsHaveNoSlash(s: string)
    ensures forall i | 0 <= i < |Segments(s)| :: '/' !in Segments(s)[i]
  {
    if s != "" {
      SegmentsHaveNoSlash(s[1..]);
    }
  }

  lemma {:induction false} ResolveIsProper(segments: seq<string>, absolute: bool, stack: seq<string>)
    requires Proper(stack, absolute) && forall i | 0 <= i < |segments| :: '/' !in segments[i]
    ensures Proper(Resolve(segments, absolute, stack), absolute)
  {
    hide Proper, Walk;
    if segments != [] {
      WalkKeepsProper(stack, segments[0], absolute);
      ResolveIsProper(segments[1..], absolute, Walk(stack, segments[0], absolute));
    }
  }

  lemma BaseIsProper(root: string, slug: string, key: string)
    ensures var (stack, absolute) := Base(root, slug, key); Proper(stack, absolute)
  {
    hide Resolve, Segments, Joined, NonEmpty, Trim, OrProject;
    var s, k := OrProject(slug), OrProject(Trim(key));
    OrProjectIsNonEmpty(slug);
    OrProjectIsNonEmpty(Trim(key));
    Kept(root, s, k);
    var p := Joined(NonEmpty([root, s, k]));
    SegmentsHaveNoSlash(p);
    ResolveIsProper(Segments(p), p[0] == '/', []);
  }

  /** Whatever the root, slug and key are (dots included), the path is one fixed parent directory followed
      by the leaf; only the leaves `.` and `..`, which an override can have, give that directory itself
      and the one above it. */
  lemma PathIsParentAndLeaf(root: string, slug: string, key: string, branch: string)
    ensures var path, (stack, absolute) := MissionWorktreePath(root, slug, key, branch), Base(root, slug, key);
            && (BranchLeaf(branch) !in {".", ".."} ==> path == ParentOf(root, slug, key) + BranchLeaf(branch))
            && (BranchLeaf(branch) == "." ==> path == Rendered(stack, absolute))
            && (BranchLeaf(branch) == ".." ==>
                  path == Rendered(if stack != [] && stack[|stack| - 1] != ".." then stack[..|stack| - 1]
                                   else if absolute then [] else stack + [".."], absolute))
  {
    hide MissionWorktreePath, BranchLeaf, Base, Joined;
    var (stack, absolute) := Base(root, slug, key);
    PathIsOneStep(root, slug, key, branch);
    LeafHasNoSlash(branch);
    JoinedLast(stack, BranchLeaf(branch));
    BaseIsProper(root, slug, key);
  }

  // ---- when two branches share a worktree ------------------------------------------------

  /** Splitting at the slashes undoes joining. */
  lemma {:induction false} SegmentsOfJoined(parts: seq<string>)
    requires parts != [] && forall i | 0 <= i < |parts| :: '/' !in parts[i]
    ensures Segments(Joined(parts)) == parts
  {
    hide Segments;
    OneSegment(parts[0]);
    if |parts| > 1 {
      SegmentsOfJoined(parts[1..]);
      SegmentsConcat(parts[0], Joined(parts[1..]));
      assert parts == [parts[0]] + parts[1..];
    } else {
      assert parts == [parts[0]];
    }
  }

  lemma DotIsNotJoined(stack: seq<string>, absolute: bool)
    requires Proper(stack, absolute) && stack != []
    ensures Joined(stack) != "" && Joined(stack) != "."
  {
    hide Segments, Joined;
    SegmentsOfJoined(stack);
    OneSegment("");
    OneSegment(".");
    assert stack[0] !in {"", "."};
  }

  lemma NotTheEnd(stack: seq<string>, absolute: bool)
    requires Proper(stack, absolute) && stack != []
    ensures Rendered(stack, absolute) != Rendered([], absolute)
  {
    hide Joined, Proper;
    DotIsNotJoined(stack, absolute);
    assert |"/" + Joined(stack)| > 1;
    assert "" + Joined(stack) == Joined(stack);
  }

  lemma JoinedApart(a: seq<string>, b: seq<string>, absolute: bool)
    requires Proper(a, absolute) && Proper(b, absolute) && a != [] && b != []
    ensures Joined(a) == Joined(b) <==> a == b
  {
    hide Segments, Joined;
    SegmentsOfJoined(a);
    SegmentsOfJoined(b);
  }

  lemma SameSuffix(p: string, a: string, b: string)
    ensures p + a == p + b <==> a == b
  {
    assert (p + a)[|p|..] == a && (p + b)[|p|..] == b;
  }

  /** Different walks are different paths. */
  lemma RenderedApart(a: seq<string>, b: seq<string>, absolute: bool)
    requires Proper(a, absolute) && Proper(b, absolute)
    ensures Rendered(a, absolute) == Rendered(b, absolute) <==> a == b
  {
    hide Segments, Joined, Proper;
    if a != [] && b != [] {
      SameSuffix(if absolute then "/" else "", Joined(a), Joined(b));
      JoinedApart(a, b, absolute);
    } else if a != [] {
      NotTheEnd(a, absolute);
    } else if b != [] {
      NotTheEnd(b, absolute);
    }
  }

  lemma UpIsElsewhere(stack: seq<string>, absolute: bool)
    requires Proper(stack, absolute) && !(stack == [] && absolute)
    ensures |Walk(stack, "..", absolute)| != |stack|
  {
  }

  /** Different leaves are different steps, but for `.` and `..` in the root. */
  lemma StepsApart(stack: seq<string>, a: string, b: string, absolute: bool)
    requires Proper(stack, absolute) && a != "" && b != ""
    ensures Walk(stack, a, absolute) == Walk(stack, b, absolute) <==>
            a == b || ({a, b} == {".", ".."} && stack == [] && absolute)
  {
    var n := |stack|;
    assert a !in {".", ".."} ==> Walk(stack, a, absolute)[n..] == [a];
    assert b !in {".", ".."} ==> Walk(stack, b, absolute)[n..] == [b];
    assert [a][0] == a && [b][0] == b && [".."][0] == "..";
    assert {a, b} == {".", ".."} <==> (a == "." && b == "..") || (a == ".." && b == ".") by {
      assert a in {a, b} && b in {a, b} && "." in {".", ".."} && ".." in {".", ".."};
    }
    if !(stack == [] && absolute) {
      UpIsElsewhere(stack, absolute);
    }
  }

  lemma TrimKeeps(s: string)
    requires s != "" && s[0] != '-' && s[|s| - 1] != '-'
    ensures TrimDashes(s) == s
  {
  }

  lemma DotLeaf(s: string)
    requires s in {".", ".."}
    ensures BranchLeaf(s) == s
  {
    hide Squeeze, TrimDashes;
    NoRuns(s, IsAnySlash, '-', false);
    TrimKeeps(s);
  }

  lemma SlashLeaf()
    ensures BranchLeaf("a/b") == BranchLeaf("a-b")
  {
    hide TrimDashes;
    assert "a/b"[1..] == "/b" && "/b"[1..] == "b" && "b"[1..] == "";
    assert Squeeze("/b", IsAnySlash, '-', false) == "-b";
    assert Squeeze("a/b", IsAnySlash, '-', false) == "a-b";
    NoRuns("a-b", IsAnySlash, '-', false);
  }

  /** Two branches of a project resource share a worktree directory exactly when they have the same leaf,
      as `a/b` and `a-b` do, or when one leaf is `.`, the other `..` and the directory is the root. */
  lemma WorktreesCollide(root: string, slug: string, key: string, a: string, b: string)
    ensures MissionWorktreePath(root, slug, key, a) == MissionWorktreePath(root, slug, key, b) <==>
            BranchLeaf(a) == BranchLeaf(b)
            || ({BranchLeaf(a), BranchLeaf(b)} == {".", ".."} && Base(root, slug, key) == ([], true))
    ensures BranchLeaf("a/b") == BranchLeaf("a-b") && BranchLeaf(".") == "." && BranchLeaf("..") == ".."
  {
    hide BranchLeaf, MissionWorktreePath, Base, Rendered, Walk;
    var (stack, absolute) := Base(root, slug, key);
    PathIsOneStep(root, slug, key, a);
    PathIsOneStep(root, slug, key, b);
    LeafHasNoSlash(a);
    LeafHasNoSlash(b);
    BaseIsProper(root, slug, key);
    WalkKeepsProper(stack, BranchLeaf(a), absolute);
    WalkKeepsProper(stack, BranchLeaf(b), absolute);
    RenderedApart(Walk(stack, BranchLeaf(a), absolute), Walk(stack, BranchLeaf(b), absolute), absolute);
    StepsApart(stack, BranchLeaf(a), BranchLeaf(b), absolute);
    SlashLeaf();
    DotLeaf(".");
    DotLeaf("..");
  }

  lemma NoBackslash(branch: string)
    requires Name(branch)
    ensures '\\' !in branch
  {
  }

  /** A planned name is its own leaf ... */
  lemma NameIsItsLeaf(branch: string)
    requires Name(branch)
    ensures BranchLeaf(branch) == branch && branch !in {".", ".."}
  {
    hide Name, Squeeze, TrimDashes;
    NameChars(branch);
    NoBackslash(branch);
    NoRuns(branch, IsAnySlash, '-', false);
    NameKeepsSteps(branch);
  }

  /** ... so distinct planned names have distinct worktrees. */
  lemma NamesHaveOwnWorktrees(root: string, slug: string, key: string, a: string, b: string)
    requires Name(a) && Name(b) && a != b
    ensures MissionWorktreePath(root, slug, key, a) != MissionWorktreePath(root, slug, key, b)
  {
    hide BranchLeaf, MissionWorktreePath, Name;
    NameIsItsLeaf(a);
    NameIsItsLeaf(b);
    WorktreesCollide(root, slug, key, a, b);
  }

  // ---- leaves ---------------------------------------------------------------------------

  lemma {:induction false} OnlyDashes(s: string, inRun: bool)
    requires forall c | c in s :: c in "-/\\"
    ensures forall c | c in Squeeze(s, IsAnySlash, '-', inRun) :: c == '-'
  {
    if s != "" {
      assert s[0] in s && forall c | c in s[1..] :: c in s;
      OnlyDashes(s[1..], IsAnySlash(s[0]));
    }
  }

  lemma {:induction false} LastDashesGo(s: string)
    requires forall i | 0 <= i < |s| :: s[i] == '-'
    ensures DropLastDashes(s) == ""
  {
    if s != "" {
      LastDashesGo(s[..|s| - 1]);
    }
  }

  lemma DashesGo(s: string)
    requires forall c | c in s :: c == '-'
    ensures TrimDashes(s) == ""
  {
    var t := DropFirstDashes(s);
    assert forall i | 0 <= i < |t| :: t[i] in s;
    LastDashesGo(t);
  }

  lemma TrimEnds(s: string)
    ensures var r := TrimDashes(s); r != "" ==> r[0] != '-' && r[|r| - 1] != '-'
  {
  }

  /** A leaf is one path segment that neither starts nor ends with a dash; a branch of nothing but slashes
      and dashes has the leaf `branch`. */
  lemma LeafForm(branch: string)
    ensures var leaf := BranchLeaf(branch);
            && leaf != "" && leaf[0] != '-' && leaf[|leaf| - 1] != '-' && '/' !in leaf && '\\' !in leaf
            && ((forall c | c in branch :: c in "-/\\") ==> leaf == "branch")
  {
    hide Squeeze;
    var squeezed := Squeeze(branch, IsAnySlash, '-', false);
    SqueezeRemoves(branch, IsAnySlash, '-', false);
    TrimAddsNothing(squeezed, '/');
    TrimAddsNothing(squeezed, '\\');
    TrimEnds(squeezed);
    if forall c | c in branch :: c in "-/\\" {
      OnlyDashes(branch, false);
      DashesGo(squeezed);
    }
  }

  // ---- plain paths ----------------------------------------------------------------------

  /** The name of a directory, neither `.` nor `..`. */
  predicate Plain(part: string) { part !in {"", ".", ".."} && '/' !in part }

  lemma {:induction false} PlainResolves(parts: seq<string>, absolute: bool, stack: seq<string>)
    requires forall i | 0 <= i < |parts| :: Plain(parts[i])
    ensures Resolve(parts, absolute, stack) == stack + parts
  {
    if parts != [] {
      PlainResolves(parts[1..], absolute, stack + [parts[0]]);
      assert parts == [parts[0]] + parts[1..];
    }
  }

  lemma EmptySegment(parts: seq<string>, stack: seq<string>)
    ensures Resolve([""] + parts, true, stack) == Resolve(parts, true, stack)
  {
    assert ([""] + parts)[1..] == parts;
  }

  /** The absolute path with these segments. */
  function Absolute(parts: seq<string>): (p: string)
    requires parts != []
    ensures p != "" && p[0] == '/'
  {
    "/" + Joined(parts)
  }

  lemma PlainPath(parts: seq<string>)
    requires parts != [] && forall i | 0 <= i < |parts| :: Plain(parts[i])
    ensures Resolve(Segments(Absolute(parts)), true, []) == parts
  {
    hide Segments, Joined, Resolve;
    SegmentsOfJoined(parts);
    SegmentsStep('/', Joined(parts));
    assert "/" + Joined(parts) == ['/'] + Joined(parts);
    PlainResolves(parts, true, []);
    EmptySegment(parts, []);
    assert [] + parts == parts;
  }

  lemma Regroup(a: string, b: string, c: string)
    ensures (a + b) + c == a + (b + c)
  {
  }

  lemma JoinedStep(first: string, rest: seq<string>)
    requires rest != []
    ensures Joined([first] + rest) == first + ("/" + Joined(rest))
  {
    assert ([first] + rest)[1..] == rest;
    Regroup(first, "/", Joined(rest));
  }

  lemma SlashFirst(a: string, rest: seq<string>)
    requires rest != []
    ensures Joined(["/" + a] + rest) == "/" + Joined([a] + rest)
  {
    hide Joined;
    JoinedStep("/" + a, rest);
    JoinedStep(a, rest);
    Regroup("/", a, "/" + Joined(rest));
  }

  lemma OnePart(part: string)
    ensures Joined([part]) == part
  {
  }

  /** Joining what is joined already is joining it all. */
  lemma {:induction false} Flattened(dirs: seq<string>, rest: seq<string>)
    requires dirs != [] && rest != []
    ensures Joined([Joined(dirs)] + rest) == Joined(dirs + rest)
  {
    hide Joined;
    if |dirs| == 1 {
      OnePart(dirs[0]);
      assert dirs == [dirs[0]];
    } else {
      var tail := dirs[1..];
      assert dirs == [dirs[0]] + tail && dirs + rest == [dirs[0]] + (tail + rest);
      Flattened(tail, rest);
      JoinedStep(dirs[0], tail);
      JoinedStep(Joined(tail), rest);
      JoinedStep(dirs[0], tail + rest);
      JoinedStep(Joined(dirs), rest);
      Regroup(dirs[0], "/" + Joined(tail), "/" + Joined(rest));
      Regroup("/", Joined(tail), "/" + Joined(rest));
    }
  }

  lemma AllGiven(root: string, s: string, k: string)
    requires root != "" && s != "" && k != ""
    ensures NonEmpty([root, s, k]) == [root] + [s, k]
  {
    assert [root, s, k] == [root] + [s, k] && [s, k] == [s] + [k] && [k] == [k] + [];
    NonEmptyFirst(root, [s, k]);
    NonEmptyFirst(s, [k]);
    NonEmptyFirst(k, []);
  }

  lemma AbsoluteJoined(dirs: seq<string>, rest: seq<string>)
    requires dirs != [] && rest != []
    ensures Joined([Absolute(dirs)] + rest) == Absolute(dirs + rest)
  {
    hide Joined;
    SlashFirst(Joined(dirs), rest);
    Flattened(dirs, rest);
  }

  lemma AbsoluteLast(parts: seq<string>, last: string)
    requires parts != []
    ensures Absolute(parts) + "/" + last == Absolute(parts + [last])
  {
    hide Joined;
    JoinedLast(parts, last);
    Regroup("/", Joined(parts), "/");
    Regroup("/", Joined(parts) + "/", last);
  }

  lemma BaseOfPlain(root: string, slug: string, key: string, parts: seq<string>)
    requires parts != [] && root != ""
    requires Joined(NonEmpty([root, OrProject(slug), OrProject(Trim(key))])) == Absolute(parts)
    requires Resolve(Segments(Absolute(parts)), true, []) == parts
    ensures ParentOf(root, slug, key) == Absolute(parts) + "/"
  {
    hide Joined, Resolve, Segments, Trim, OrProject, NonEmpty;
    Regroup("/", Joined(parts), "/");
  }

  lemma PlainIsGiven(part: string)
    requires Plain(part)
    ensures part != ""
  {
  }

  lemma PlainDefault(part: string)
    requires part == "" || Plain(part)
    ensures Plain(OrProject(part)) && OrProject(part) == if part == "" then "project" else part
  {
  }

  lemma PlainParent(dirs: seq<string>, slug: string, key: string)
    requires dirs != [] && forall i | 0 <= i < |dirs| :: Plain(dirs[i])
    requires Plain(OrProject(slug)) && Plain(OrProject(Trim(key)))
    ensures ParentOf(Absolute(dirs), slug, key) ==
            Absolute(dirs + [OrProject(slug), OrProject(Trim(key))]) + "/"
  {
    hide ParentOf, Joined, Resolve, Segments, Trim, OrProject, NonEmpty, Plain, Absolute;
    var s, k := OrProject(slug), OrProject(Trim(key));
    PlainIsGiven(s);
    PlainIsGiven(k);
    AllGiven(Absolute(dirs), s, k);
    AbsoluteJoined(dirs, [s, k]);
    PlainPath(dirs + [s, k]);
    BaseOfPlain(Absolute(dirs), slug, key, dirs + [s, k]);
  }

  /** Under an absolute root of plain directories, the worktree of a planned name is where one looks for it:
      root, project, resource, branch, with `project` for a project or resource that is not named. */
  lemma PlainWorktree(dirs: seq<string>, slug: string, key: string, branch: string)
    requires dirs != [] && (forall i | 0 <= i < |dirs| :: Plain(dirs[i])) && Name(branch)
    requires (slug == "" || Plain(slug)) && (Trim(key) == "" || Plain(Trim(key)))
    ensures MissionWorktreePath(Absolute(dirs), slug, key, branch) ==
            Absolute(dirs + [if slug == "" then "project" else slug,
                             if Trim(key) == "" then "project" else Trim(key)] + [branch])
  {
    hide MissionWorktreePath, BranchLeaf, Absolute, Trim, Name, ParentOf, Plain, OrProject, Base, Rendered;
    PlainDefault(slug);
    PlainDefault(Trim(key));
    NameIsItsLeaf(branch);
    PathIsParentAndLeaf(Absolute(dirs), slug, key, branch);
    PlainParent(dirs, slug, key);
    AbsoluteLast(dirs + [OrProject(slug), OrProject(Trim(key))], branch);
  }
}
