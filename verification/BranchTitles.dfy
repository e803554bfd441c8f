/** What of a mission title gets into its branch. */
module BranchTitles {
  import opened Common
  import opened BranchNames

  /** The letters and digits of a string, in order. */
  function Kept(s: string): string {
    if s == "" then "" else (if IsSlugChar(s[0]) then [s[0]] else "") + Kept(s[1..])
  }

  lemma {:induction false} KeptConcat(a: string, b: string)
    ensures Kept(a + b) == Kept(a) + Kept(b)
  {
    if a == "" {
      assert a + b == b;
    } else {
      KeptConcat(a[1..], b);
      assert (a + b)[0] == a[0] && (a + b)[1..] == a[1..] + b;
      var head := if IsSlugChar(a[0]) then [a[0]] else "";
      assert head + (Kept(a[1..]) + Kept(b)) == (head + Kept(a[1..])) + Kept(b);
    }
  }

  lemma {:induction false} SqueezeKeeps(s: string, inRun: bool)
    ensures Kept(Squeeze(s, NotSlugChar, '-', inRun)) == Kept(s)
  {
    if s != "" {
      SqueezeKeeps(s[1..], NotSlugChar(s[0]));
      var rest := Squeeze(s[1..], NotSlugChar, '-', NotSlugChar(s[0]));
      assert Kept("-") == "" && Kept("") == "";
      KeptConcat(if !NotSlugChar(s[0]) then [s[0]] else if inRun then "" else "-", rest);
    }
  }

  lemma {:induction false} FirstDashesKeep(s: string)
    ensures Kept(DropFirstDashes(s)) == Kept(s)
  {
    if s != "" && s[0] == '-' {
      FirstDashesKeep(s[1..]);
    }
  }

  lemma {:induction false} LastDashesKeep(s: string)
    ensures Kept(DropLastDashes(s)) == Kept(s)
  {
    if s != "" && s[|s| - 1] == '-' {
      LastDashesKeep(s[..|s| - 1]);
      KeptConcat(s[..|s| - 1], "-");
      assert s == s[..|s| - 1] + "-" && Kept("-") == "";
    }
  }

  /** The title as a slug before it is cut to length. */
  function Uncut(title: string): string {
    TrimDashes(Squeeze(Each(title, LowerChar), NotSlugChar, '-', false))
  }

  /** The lower-case letters and the digits of the title, upper-case letters in lower case, and nothing else. */
  function Letters(title: string): string {
    if title == "" then ""
    else
      var c := title[0];
      (if 'a' <= c <= 'z' || '0' <= c <= '9' then [c]
       else if 'A' <= c <= 'Z' then [c - 'A' + 'a']
       else "") + Letters(title[1..])
  }

  lemma {:induction false} LettersKept(title: string)
    ensures Kept(Each(title, LowerChar)) == Letters(title)
  {
    if title != "" {
      LettersKept(title[1..]);
      assert Each(title, LowerChar)[1..] == Each(title[1..], LowerChar);
    }
  }

  lemma TrimKeepsLetters(s: string)
    ensures Kept(TrimDashes(s)) == Kept(s)
  {
    FirstDashesKeep(s);
    LastDashesKeep(DropFirstDashes(s));
  }

  /** Nothing of the title is lost or added: the uncut slug has its letters and digits, in order. */
  lemma UncutKeepsLetters(title: string)
    ensures Kept(Uncut(title)) == Letters(title)
    ensures Uncut(title) == "" || Name(Uncut(title))
  {
    hide Squeeze, Dashed, Name, TrimDashes;
    var lower := Each(title, LowerChar);
    var squeezed := Squeeze(lower, NotSlugChar, '-', false);
    LettersKept(title);
    SqueezeKeeps(lower, false);
    SqueezeIsDashed(lower, false);
    TrimmedForm(squeezed);
    TrimKeepsLetters(squeezed);
  }

  lemma NoDashAtTheEnds(s: string)
    requires s != "" ==> s[0] != '-' && s[|s| - 1] != '-'
    ensures TrimDashes(s) == s
  {
  }

  /** A slug of fewer than 48 characters stays whole.  A longer one is cut before the last dash between
      the 28th and the 48th character, or to 48 if there is none. */
  lemma CutExactly(title: string)
    ensures var u, r := Uncut(title), TitleSlug(title);
            && r <= u && (|u| < 48 ==> r == u)
            && (|u| >= 48 ==>
                  && 28 <= |r| <= 48 && (|r| < 48 ==> u[|r|] == '-')
                  && forall i | (if |r| < 48 then |r| + 1 else 28) <= i < 48 :: u[i] != '-')
  {
    hide Squeeze, Each, TrimDashes, Kept;
    UncutKeepsLetters(title);
    var u := Uncut(title);
    if |u| < 48 {
      NoDashAtTheEnds(u);
    } else {
      var truncated := if |u| > 48 then u[..48] else u;
      var b := LastDash(truncated);
      assert forall i | 0 <= i < 48 :: truncated[i] == u[i];
      if b >= 28 {
        assert u[b] == '-' && u[b - 1] != '-';
        NoDashAtTheEnds(truncated[..b]);
      } else {
        NoDashAtTheEnds(truncated);
      }
    }
  }

  /** The branch of a mission is its slug, or `mission-` and its number without one, and its number. */
  lemma CanonicalIs(m: Mission)
    ensures CanonicalMissionBranch(m) ==
            (if TitleSlug(m.title) != "" then TitleSlug(m.title) else "mission-" + Decimal(m.sequence))
            + "-" + Decimal(m.sequence)
  {
    CanonicalBranch(m, "");
  }
}
