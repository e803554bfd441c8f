/** The strings behind mission branches: title slugs, branch sanitising, decimal numbers and the
    canonical branch of a mission.

    A string here is what the source works on once it has removed combining marks, and lower-casing
    is that of ASCII. */
module BranchNames {
  import opened Common

  const TITLE_SLUG_MAX: nat := 48
  /** `Math.floor(TITLE_SLUG_MAX * 0.6)`. */
  const SLUG_BOUNDARY: nat := 28

  // ---- the string operations ------------------------------------------------------------

  predicate IsDigit(c: char) { '0' <= c <= '9' }

  predicate IsSlugChar(c: char) { 'a' <= c <= 'z' || IsDigit(c) }

  predicate NotSlugChar(c: char) { !IsSlugChar(c) }

  predicate IsSlash(c: char) { c == '/' }

  predicate IsDot(c: char) { c == '.' }

  predicate IsSpecial(c: char) { c in "~^:?*[]" || IsSpace(c) }

  function LowerChar(c: char): char {
    if 'A' <= c <= 'Z' then c - 'A' + 'a' else c
  }

  function ForwardSlash(c: char): char {
    if c == '\\' then '/' else c
  }

  function Each(s: string, f: char -> char): string {
    seq(|s|, i requires 0 <= i < |s| => f(s[i]))
  }

  /** Replaces every run of matching characters by one `one`. */
  function Squeeze(s: string, hit: char -> bool, one: char, inRun: bool): string {
    if s == "" then ""
    else if hit(s[0]) then (if inRun then "" else [one]) + Squeeze(s[1..], hit, one, true)
    else [s[0]] + Squeeze(s[1..], hit, one, false)
  }

  function DropFirstDashes(s: string): (r: string)
    ensures |r| <= |s| && r == s[|s| - |r|..] && (r != "" ==> r[0] != '-')
  {
    if s != "" && s[0] == '-' then DropFirstDashes(s[1..]) else s
  }

  function DropLastDashes(s: string): (r: string)
    ensures |r| <= |s| && r == s[..|r|] && (r != "" ==> r[|r| - 1] != '-')
  {
    if s != "" && s[|s| - 1] == '-' then DropLastDashes(s[..|s| - 1]) else s
  }

  function TrimDashes(s: string): string {
    DropLastDashes(DropFirstDashes(s))
  }

  /** `lastIndexOf('-')`. */
  function LastDash(s: string): (b: int)
    ensures -1 <= b < |s|
    ensures b >= 0 ==> s[b] == '-'
    ensures forall i | b < i < |s| :: s[i] != '-'
  {
    if s == "" then -1 else if s[|s| - 1] == '-' then |s| - 1 else LastDash(s[..|s| - 1])
  }

  /** Removes the dots and dashes at the start and after each slash. */
  function DropLeading(s: string, atStart: bool): string {
    if s == "" then ""
    else if atStart && (s[0] == '.' || s[0] == '-') then DropLeading(s[1..], true)
    else [s[0]] + DropLeading(s[1..], s[0] == '/')
  }

  function DropTrailing(s: string): string {
    if s != "" && s[|s| - 1] in "./-" then DropTrailing(s[..|s| - 1]) else s
  }

  /** One removal at the end: a `.lock`, or else the run of dots, slashes and dashes. */
  function DropTail(s: string): string {
    if |s| >= 5 && s[|s| - 5..] == ".lock" then s[..|s| - 5] else DropTrailing(s)
  }

  // ---- slugs and branches ---------------------------------------------------------------

  function Bounded(slug: string): string {
    var truncated := if |slug| > TITLE_SLUG_MAX then slug[..TITLE_SLUG_MAX] else slug;
    var boundary := if |truncated| == TITLE_SLUG_MAX then LastDash(truncated) else -1;
    TrimDashes(if boundary > 0 && boundary >= SLUG_BOUNDARY then truncated[..boundary] else truncated)
  }

  function TitleSlug(title: string): string {
    Bounded(TrimDashes(Squeeze(Each(title, LowerChar), NotSlugChar, '-', false)))
  }

  function SlugifyBranchTitle(title: string, fallback: string): string {
    if TitleSlug(title) != "" then TitleSlug(title) else fallback
  }

  function Sanitized(branch: string): string {
    var slashed := Squeeze(Each(Each(branch, LowerChar), ForwardSlash), IsSlash, '/', false);
    var undotted := DropLeading(Squeeze(slashed, IsDot, '.', false), true);
    DropTail(Squeeze(Squeeze(undotted, IsSpecial, '-', false), IsSlash, '/', false))
  }

  predicate HasAtBrace(s: string) {
    exists i | 0 <= i < |s| - 1 :: s[i] == '@' && s[i + 1] == '{'
  }

  function SanitizeBranchName(branch: string, fallback: string): string {
    var sanitized := Sanitized(branch);
    if sanitized == "" || sanitized[0] == '/' || HasAtBrace(sanitized) then fallback else sanitized
  }

  datatype Mission = Mission(title: string, sequence: nat)

  function Decimal(n: nat): string {
    if n < 10 then ['0' + n as char] else Decimal(n / 10) + ['0' + (n % 10) as char]
  }

  function Fallback(m: Mission): string {
    "mission-" + Decimal(m.sequence)
  }

  function CanonicalMissionBranch(m: Mission): string {
    SanitizeBranchName(SlugifyBranchTitle(m.title, Fallback(m)) + "-" + Decimal(m.sequence), Fallback(m))
  }

  // ---- decimal numbers ------------------------------------------------------------------

  predicate AllDigits(s: string) {
    forall i | 0 <= i < |s| :: IsDigit(s[i])
  }

  function Digits(s: string): nat
    requires AllDigits(s)
  {
    if s == "" then 0 else Digits(s[..|s| - 1]) * 10 + (s[|s| - 1] - '0') as nat
  }

  function TakeDigits(s: string): (r: string)
    ensures AllDigits(r)
  {
    if s != "" && IsDigit(s[0]) then [s[0]] + TakeDigits(s[1..]) else ""
  }

  /** `Number.parseInt(s, 10)`; `None` is NaN. */
  function ParseInt(s: string): Option<int> {
    var t := TrimStart(s);
    var signed := t != "" && (t[0] == '-' || t[0] == '+');
    var digits := TakeDigits(if signed then t[1..] else t);
    if digits == "" then None
    else Some(if signed && t[0] == '-' then -(Digits(digits) as int) else Digits(digits))
  }

  /** Printing then parsing gives the number back. */
  lemma {:induction false} DecimalRoundTrip(n: nat)
    ensures Decimal(n) != "" && AllDigits(Decimal(n)) && Digits(Decimal(n)) == n
  {
    if n < 10 {
      assert Decimal(n)[..0] == "";
    } else {
      DecimalRoundTrip(n / 10);
      assert Decimal(n)[..|Decimal(n)| - 1] == Decimal(n / 10);
    }
  }

  lemma {:induction false} TakesAllDigits(s: string)
    requires AllDigits(s)
    ensures TakeDigits(s) == s
  {
    if s != "" {
      TakesAllDigits(s[1..]);
    }
  }

  lemma ParseIntRoundTrip(n: nat)
    ensures ParseInt(Decimal(n)) == Some(n)
  {
    DecimalRoundTrip(n);
    TakesAllDigits(Decimal(n));
    assert IsDigit(Decimal(n)[0]);
  }

  // ---- names: lower-case letters, digits and single inner dashes ------------------------

  ghost predicate Dashed(s: string) {
    && (forall i | 0 <= i < |s| :: IsSlugChar(s[i]) || s[i] == '-')
    && (forall i | 0 < i < |s| :: s[i - 1] == '-' ==> s[i] != '-')
  }

  ghost predicate Name(s: string) {
    s != "" && Dashed(s) && s[0] != '-' && s[|s| - 1] != '-'
  }

  /** What slugging makes, and keeps: at most 48 characters, and at 48 no dash to cut at. */
  ghost predicate SlugForm(s: string) {
    s != "" ==>
      && Name(s) && |s| <= TITLE_SLUG_MAX
      && (|s| == TITLE_SLUG_MAX ==> forall i | SLUG_BOUNDARY <= i < |s| :: s[i] != '-')
  }

  lemma DashedSlice(s: string, lo: nat, hi: nat)
    requires Dashed(s) && lo <= hi <= |s|
    ensures Dashed(s[lo..hi])
  {
    assert forall i | 0 <= i < hi - lo :: s[lo..hi][i] == s[lo + i];
    forall i | 0 < i < hi - lo ensures s[lo..hi][i - 1] == '-' ==> s[lo..hi][i] != '-' {
      assert s[lo + i - 1] == '-' ==> s[lo + i] != '-';
    }
  }

  lemma {:induction false} SqueezeIsDashed(s: string, inRun: bool)
    ensures var r := Squeeze(s, NotSlugChar, '-', inRun);
            Dashed(r) && (inRun && r != "" ==> r[0] != '-')
  {
    if s != "" {
      SqueezeIsDashed(s[1..], NotSlugChar(s[0]));
    }
  }

  /** Every run of matching characters is a single `one` already. */
  ghost predicate Squeezed(s: string, hit: char -> bool, one: char, inRun: bool) {
    s == "" || ((hit(s[0]) ==> s[0] == one && !inRun) && Squeezed(s[1..], hit, one, hit(s[0])))
  }

  lemma {:induction false} SqueezeIdentity(s: string, hit: char -> bool, one: char, inRun: bool)
    requires Squeezed(s, hit, one, inRun)
    ensures Squeeze(s, hit, one, inRun) == s
  {
    if s != "" {
      SqueezeIdentity(s[1..], hit, one, hit(s[0]));
    }
  }

  lemma {:induction false} NoRuns(s: string, hit: char -> bool, one: char, inRun: bool)
    requires forall c | c in s :: !hit(c)
    ensures Squeeze(s, hit, one, inRun) == s
  {
    if s != "" {
      assert hit(s[0]) == false && forall c | c in s[1..] :: c in s;
      NoRuns(s[1..], hit, one, false);
    }
  }

  lemma {:induction false} DashedIsSqueezed(s: string, inRun: bool)
    requires Dashed(s) && (inRun && s != "" ==> s[0] != '-')
    ensures Squeezed(s, NotSlugChar, '-', inRun)
  {
    if s != "" {
      DashedSlice(s, 1, |s|);
      assert s[1..|s|] == s[1..];
      assert |s| > 1 ==> s[0] == '-' ==> s[1] != '-';
      DashedIsSqueezed(s[1..], NotSlugChar(s[0]));
    }
  }

  lemma EachKept(s: string, f: char -> char)
    requires forall c | c in s :: f(c) == c
    ensures Each(s, f) == s
  {
    assert forall i | 0 <= i < |s| :: s[i] in s;
  }

  lemma TrimmedForm(s: string)
    requires Dashed(s)
    ensures var r := TrimDashes(s); (r == "" || Name(r)) && |r| <= |s| && (|r| == |s| ==> r == s)
  {
    hide Dashed;
    var t := DropFirstDashes(s);
    DashedSlice(s, |s| - |t|, |s|);
    assert s[|s| - |t|..|s|] == s[|s| - |t|..];
    DashedSlice(t, 0, |DropLastDashes(t)|);
    assert t[0..|DropLastDashes(t)|] == t[..|DropLastDashes(t)|];
  }

  lemma BoundedForm(slug: string)
    requires Dashed(slug)
    ensures SlugForm(Bounded(slug))
  {
    hide TrimDashes, Dashed;
    var truncated := if |slug| > TITLE_SLUG_MAX then slug[..TITLE_SLUG_MAX] else slug;
    if |slug| > TITLE_SLUG_MAX {
      DashedSlice(slug, 0, TITLE_SLUG_MAX);
    }
    var boundary := if |truncated| == TITLE_SLUG_MAX then LastDash(truncated) else -1;
    if boundary > 0 && boundary >= SLUG_BOUNDARY {
      DashedSlice(truncated, 0, boundary);
      TrimmedForm(truncated[..boundary]);
    } else {
      TrimmedForm(truncated);
    }
  }

  lemma NameOrEmptyIsDashed(s: string)
    requires s == "" || Name(s)
    ensures Dashed(s)
  {
  }

  /** Every title slug has the slug form ... */
  lemma TitleSlugForm(title: string)
    ensures SlugForm(TitleSlug(title))
  {
    hide TrimDashes, Bounded, SlugForm, Dashed;
    var squeezed := Squeeze(Each(title, LowerChar), NotSlugChar, '-', false);
    SqueezeIsDashed(Each(title, LowerChar), false);
    TrimmedForm(squeezed);
    NameOrEmptyIsDashed(TrimDashes(squeezed));
    BoundedForm(TrimDashes(squeezed));
  }

  lemma NameChars(s: string)
    requires Name(s)
    ensures forall c | c in s :: IsSlugChar(c) || c == '-'
    ensures s != "" && s[0] !in "-/" && s[|s| - 1] !in "./-" && '.' !in s && '/' !in s && !HasAtBrace(s)
  {
  }

  lemma NameKeepsSteps(s: string)
    requires Name(s)
    ensures Each(s, LowerChar) == s && TrimDashes(s) == s
    ensures Squeeze(s, NotSlugChar, '-', false) == s
  {
    hide Name, Dashed, Squeeze, Each;
    NameChars(s);
    EachKept(s, LowerChar);
    NameOrEmptyIsDashed(s);
    DashedIsSqueezed(s, false);
    SqueezeIdentity(s, NotSlugChar, '-', false);
  }

  lemma EmptySteps()
    ensures Each("", LowerChar) == "" && Squeeze("", NotSlugChar, '-', false) == "" && TrimDashes("") == ""
  {
  }

  lemma BoundedKept(s: string)
    requires Name(s) && SlugForm(s)
    ensures Bounded(s) == s
  {
    hide Dashed;
  }

  /** ... and slugging a string of the slug form gives it back, so slugging is idempotent. */
  lemma SlugFormIsFixed(s: string)
    requires SlugForm(s)
    ensures TitleSlug(s) == s
  {
    hide Name, Squeeze, Each, TrimDashes;
    EmptySteps();
    if s != "" {
      NameKeepsSteps(s);
      BoundedKept(s);
    }
  }

  /** Slugging twice is slugging once exactly when the title has a slug or the fallback is
      its own slug. */
  lemma SlugifyIdempotent(title: string, fallback: string)
    ensures var once := SlugifyBranchTitle(title, fallback);
            SlugifyBranchTitle(once, fallback) == once <==>
            TitleSlug(title) != "" || TitleSlug(fallback) in {"", fallback}
  {
    hide TitleSlug;
    TitleSlugForm(title);
    SlugFormIsFixed(TitleSlug(title));
  }

  lemma DigitsName(n: nat)
    ensures Name(Decimal(n)) && '-' !in Decimal(n) && '/' !in Decimal(n)
  {
    DecimalRoundTrip(n);
  }

  /** Two names joined by a dash are a name. */
  lemma JoinedName(a: string, b: string)
    requires Name(a) && Name(b)
    ensures Name(a + "-" + b)
  {
    var s := a + "-" + b;
    assert forall i | 0 <= i < |b| :: s[|a| + 1 + i] == b[i];
    forall i | 0 < i < |s| ensures s[i - 1] == '-' ==> s[i] != '-' {
      assert i > |a| + 1 ==> s[i - 1] == b[i - |a| - 2] && s[i] == b[i - |a| - 1];
    }
  }

  lemma {:induction false} LeadingKept(s: string)
    requires '/' !in s
    ensures DropLeading(s, false) == s
  {
    if s != "" {
      assert forall i | 0 <= i < |s| - 1 :: s[1..][i] == s[i + 1];
      LeadingKept(s[1..]);
    }
  }

  lemma DropLeadingName(s: string)
    requires Name(s)
    ensures DropLeading(s, true) == s
  {
    LeadingKept(s[1..]);
  }

  lemma TailKept(s: string)
    requires s != "" && '.' !in s && s[|s| - 1] !in "./-"
    ensures DropTail(s) == s
  {
    if |s| >= 5 {
      assert s[|s| - 5..][0] in s;
    }
  }

  /** Sanitising leaves a name unchanged. */
  lemma NameIsSanitary(s: string, fallback: string)
    requires Name(s)
    ensures SanitizeBranchName(s, fallback) == s
  {
    hide Name, Squeeze, DropLeading, Each, TrimDashes;
    NameKeepsSteps(s);
    NameChars(s);
    EachKept(s, ForwardSlash);
    NoRuns(s, IsSlash, '/', false);
    NoRuns(s, IsDot, '.', false);
    DropLeadingName(s);
    NoRuns(s, IsSpecial, '-', false);
    TailKept(s);
  }

  lemma OneDot(dots: string)
    requires dots in {".", ".."}
    ensures Squeeze(dots, IsDot, '.', false) == "." && DropLeading(".", true) == "" && DropTail("") == ""
  {
    assert "."[1..] == "" && ".."[1..] == ".";
  }

  lemma NothingSqueezed(hit: char -> bool, one: char)
    ensures Squeeze("", hit, one, false) == ""
  {
  }

  /** Of a branch that is all dots nothing is left, so the fallback is taken. */
  lemma DotsFallBack(dots: string, fallback: string)
    requires dots in {".", ".."}
    ensures SanitizeBranchName(dots, fallback) == fallback
  {
    hide Squeeze, DropLeading, Each, DropTail;
    EachKept(dots, LowerChar);
    EachKept(dots, ForwardSlash);
    NoRuns(dots, IsSlash, '/', false);
    OneDot(dots);
    NothingSqueezed(IsSpecial, '-');
    NothingSqueezed(IsSlash, '/');
  }

  /** The slug part of a canonical branch. */
  function TitlePart(m: Mission): string {
    SlugifyBranchTitle(m.title, Fallback(m))
  }

  lemma TitlePartIsName(m: Mission)
    ensures Name(TitlePart(m))
  {
    hide TitleSlug;
    TitleSlugForm(m.title);
    DigitsName(m.sequence);
    assert Name("mission");
    JoinedName("mission", Decimal(m.sequence));
    assert Fallback(m) == "mission" + "-" + Decimal(m.sequence);
  }

  /** For every title and sequence: the canonical branch is the slug (or the fallback), a dash and
      the sequence; it consists of lower-case letters, digits and single inner dashes; the slug
      of the title is at most 48 characters; and sanitising leaves the branch unchanged. */
  lemma CanonicalBranch(m: Mission, fallback: string)
    ensures var branch := CanonicalMissionBranch(m);
            && branch == TitlePart(m) + "-" + Decimal(m.sequence)
            && Name(branch)
            && |TitleSlug(m.title)| <= TITLE_SLUG_MAX
            && SanitizeBranchName(branch, fallback) == branch
  {
    hide TitleSlug, SanitizeBranchName, Name;
    TitleSlugForm(m.title);
    TitlePartIsName(m);
    DigitsName(m.sequence);
    JoinedName(TitlePart(m), Decimal(m.sequence));
    NameIsSanitary(TitlePart(m) + "-" + Decimal(m.sequence), Fallback(m));
    NameIsSanitary(TitlePart(m) + "-" + Decimal(m.sequence), fallback);
  }

  /** A string splits at its last dash in one way. */
  lemma LastDashSplits(a: string, b: string, c: string, d: string)
    requires '-' !in b && '-' !in d && a + "-" + b == c + "-" + d
    ensures a == c && b == d
  {
    var s, t := a + "-" + b, c + "-" + d;
    assert s[|a|] == '-' && t[|c|] == '-';
    assert forall i | |a| < i < |s| :: s[i] in b;
    assert forall i | |c| < i < |s| :: t[i] in d;
    assert |a| == |c|;
    assert a == s[..|a|] && c == t[..|c|] && b == s[|a| + 1..] && d == t[|c| + 1..];
  }

  /** Missions with different sequences have different canonical branches. */
  lemma SequencesSeparateBranches(m: Mission, n: Mission)
    requires CanonicalMissionBranch(m) == CanonicalMissionBranch(n)
    ensures m.sequence == n.sequence
  {
    CanonicalBranch(m, "");
    CanonicalBranch(n, "");
    DigitsName(m.sequence);
    DigitsName(n.sequence);
    LastDashSplits(TitlePart(m), Decimal(m.sequence), TitlePart(n), Decimal(n.sequence));
    DecimalRoundTrip(m.sequence);
    DecimalRoundTrip(n.sequence);
  }
}
