/**
 * The rule-based helpers of the recommendation routes
 * (backend/src/routes/recommendations.js): role normalisation and the sample
 * guide lookup, the new-skill filter, milestone numbering and roadmap
 * progress, and the two fallback recommenders used when the generative model
 * is unavailable.
 */
module Recommendations {
  import opened Wrappers
  import opened Text
  import opened Seqs
  import JsNumber

  // ----- role normalisation -----

  /** Drops the leading run of `\s` characters. */
  function DropSpaces(s: string): (r: string)
    ensures |r| <= |s|
    ensures r == s[|s| - |r|..]
    ensures |r| > 0 ==> !IsSpace(r[0])
    ensures forall i :: 0 <= i < |s| - |r| ==> IsSpace(s[i])
  {
    if |s| > 0 && IsSpace(s[0]) then DropSpaces(s[1..]) else s
  }

  /** `s.replace(/\s+/g, '-')`: every maximal run of `\s` characters becomes one hyphen. */
  function CollapseSpaces(s: string): (r: string)
    ensures forall i :: 0 <= i < |r| ==> !IsSpace(r[i])
    ensures forall i :: 0 <= i < |r| ==> r[i] == '-' || r[i] in s
    decreases |s|
  {
    if |s| == 0 then []
    else if IsSpace(s[0]) then "-" + CollapseSpaces(DropSpaces(s[1..]))
    else [s[0]] + CollapseSpaces(s[1..])
  }

  /** `role.toLowerCase().replace(/\s+/g, '-')`. */
  function NormalizeRole(role: string): (r: string)
    ensures forall i :: 0 <= i < |r| ==> !IsSpace(r[i]) && LowerChar(r[i]) == r[i]
  {
    var l := Lower(role);
    LowerIdempotent(role);
    CollapseSpaces(l)
  }

  /**
   * A role without `\s` is only lower-cased, and each run of `\s` in a role
   * becomes one hyphen in its own place, the parts on either side being
   * normalised on their own.
   */
  lemma NormalizeRolePieces(a: string, w: string, b: string)
    requires Run(w)
    requires |a| == 0 || !IsSpace(a[|a| - 1])
    requires |b| == 0 || !IsSpace(b[0])
    ensures NormalizeRole(a + w + b) == NormalizeRole(a) + "-" + NormalizeRole(b)
  {
    var la, lw, lb := Lower(a), Lower(w), Lower(b);
    LowerSplits(a, w, b);
    if |a| > 0 {
      LowerKeepsSpace(a[|a| - 1]);
    }
    if |b| > 0 {
      LowerKeepsSpace(b[0]);
    }
    forall i | 0 <= i < |w|
      ensures IsSpace(lw[i])
    {
      LowerKeepsSpace(w[i]);
    }
    CollapseRunBetween(la, lw, lb);
  }

  lemma LowerSplits(a: string, w: string, b: string)
    ensures Lower(a + w + b) == Lower(a) + Lower(w) + Lower(b)
  {
    var l := Lower(a + w + b);
    var r := Lower(a) + Lower(w) + Lower(b);
    assert |l| == |r|;
    forall i | 0 <= i < |l|
      ensures l[i] == r[i]
    {
      if i < |a| {
      } else if i < |a| + |w| {
      } else {
      }
    }
  }

  /** A role without `\s` is only lower-cased. */
  lemma NormalizePlainRole(role: string)
    requires forall i :: 0 <= i < |role| ==> !IsSpace(role[i])
    ensures NormalizeRole(role) == Lower(role)
  {
    var l := Lower(role);
    forall i | 0 <= i < |l|
      ensures !IsSpace(l[i])
    {
      LowerKeepsSpace(role[i]);
    }
    CollapseNoSpace(l);
  }

  /** Without any `\s` character there is nothing to collapse. */
  lemma {:induction false} CollapseNoSpace(s: string)
    requires forall i :: 0 <= i < |s| ==> !IsSpace(s[i])
    ensures CollapseSpaces(s) == s
  {
    if |s| > 0 {
      CollapseNoSpace(s[1..]);
      assert s == [s[0]] + s[1..];
    }
  }

  /** A lower-case string is its own lower-case form. */
  lemma {:induction false} LowerFixed(s: string)
    requires forall i :: 0 <= i < |s| ==> LowerChar(s[i]) == s[i]
    ensures Lower(s) == s
  {
  }

  /** Normalising a normalised role changes nothing. */
  lemma NormalizeIdempotent(role: string)
    ensures NormalizeRole(NormalizeRole(role)) == NormalizeRole(role)
  {
    var r := NormalizeRole(role);
    LowerFixed(r);
    CollapseNoSpace(r);
  }

  /** `"A  b"` becomes `"a-b"`: the run of two spaces turns into one hyphen. */
  lemma NormalizeExample()
    ensures NormalizeRole("A  b") == "a-b"
  {
    LowerExample();
    CollapseExample();
  }

  lemma LowerExample()
    ensures Lower("A  b") == "a  b"
  {
    var l := Lower("A  b");
    assert l[0] == 'a' && l[1] == ' ' && l[2] == ' ' && l[3] == 'b';
  }

  lemma CollapseExample()
    ensures CollapseSpaces("a  b") == "a-b"
  {
    assert "a  b" == ['a'] + "  b" && !IsSpace('a');
    CollapseKeeps('a', "  b");
    CollapseRunExample();
  }

  lemma CollapseRunExample()
    ensures CollapseSpaces("  b") == "-b"
  {
    assert "  b" == [' '] + " b" && IsSpace(' ');
    CollapseRun(' ', " b");
    DropExample();
    CollapseLetter();
  }

  lemma DropExample()
    ensures DropSpaces(" b") == "b"
  {
    assert " b" == [' '] + "b" && IsSpace(' ') && !IsSpace('b');
    DropSkips(' ', "b");
  }

  lemma CollapseLetter()
    ensures CollapseSpaces("b") == "b"
  {
    assert "b" == ['b'] + [] && !IsSpace('b');
    CollapseKeeps('b', []);
  }

  /** A character other than `\s` is copied. */
  lemma CollapseKeeps(c: char, t: string)
    requires !IsSpace(c)
    ensures CollapseSpaces([c] + t) == [c] + CollapseSpaces(t)
  {
    assert ([c] + t)[1..] == t;
  }

  /** A `\s` character starts a run that becomes one hyphen. */
  lemma CollapseRun(c: char, t: string)
    requires IsSpace(c)
    ensures CollapseSpaces([c] + t) == "-" + CollapseSpaces(DropSpaces(t))
  {
    assert ([c] + t)[1..] == t;
  }

  /** A leading `\s` character is dropped. */
  lemma DropSkips(c: char, t: string)
    requires IsSpace(c)
    ensures DropSpaces([c] + t) == DropSpaces(t)
  {
    assert ([c] + t)[1..] == t;
  }

  /** A string that is non-empty and all `\s`. */
  predicate Run(w: string)
  {
    |w| > 0 && forall i :: 0 <= i < |w| ==> IsSpace(w[i])
  }

  /** Two strings that do not meet inside a run: one is empty, or one side of the seam is not `\s`. */
  predicate Seam(a: string, b: string)
  {
    |a| == 0 || |b| == 0 || !IsSpace(a[|a| - 1]) || !IsSpace(b[0])
  }

  /** A run on its own becomes a single hyphen. */
  lemma CollapseWholeRun(w: string)
    requires Run(w)
    ensures CollapseSpaces(w) == "-"
  {
    assert w == [w[0]] + w[1..];
    CollapseRun(w[0], w[1..]);
    assert DropSpaces(w[1..]) == [];
  }

  /**
   * Collapsing works piece by piece: cut the input anywhere outside a run and
   * the pieces collapse independently.
   */
  lemma {:induction false} CollapseAppend(a: string, b: string)
    requires Seam(a, b)
    ensures CollapseSpaces(a + b) == CollapseSpaces(a) + CollapseSpaces(b)
    decreases |a|
  {
    if |a| == 0 {
      assert a + b == b;
    } else if !IsSpace(a[0]) {
      SeamTail(a, b);
      CollapseAppend(a[1..], b);
      AppendKeep(a, b);
    } else {
      var d := DropSpaces(a[1..]);
      if |d| > 0 {
        SeamDrop(a, b);
        CollapseAppend(d, b);
      }
      AppendRun(a, b);
    }
  }

  lemma SeamTail(a: string, b: string)
    requires |a| > 0 && Seam(a, b)
    ensures Seam(a[1..], b)
  {
    if |a| > 1 {
      assert a[1..][|a| - 2] == a[|a| - 1];
    }
  }

  lemma SeamDrop(a: string, b: string)
    requires |a| > 0 && Seam(a, b) && |DropSpaces(a[1..])| > 0
    ensures Seam(DropSpaces(a[1..]), b)
  {
    var t := a[1..];
    var d := DropSpaces(t);
    assert d[|d| - 1] == t[|t| - 1] == a[|a| - 1];
  }

  /** The step of CollapseAppend past a character that is copied. */
  lemma AppendKeep(a: string, b: string)
    requires |a| > 0 && !IsSpace(a[0])
    requires CollapseSpaces(a[1..] + b) == CollapseSpaces(a[1..]) + CollapseSpaces(b)
    ensures CollapseSpaces(a + b) == CollapseSpaces(a) + CollapseSpaces(b)
  {
    HeadOfAppend(a, b);
    CollapseHead(a + b);
    CollapseHead(a);
    Regroup([a[0]], CollapseSpaces(a[1..]), CollapseSpaces(b));
  }

  /** The step of CollapseAppend past a leading run. */
  lemma AppendRun(a: string, b: string)
    requires |a| > 0 && IsSpace(a[0]) && Seam(a, b)
    requires |DropSpaces(a[1..])| > 0 ==>
      CollapseSpaces(DropSpaces(a[1..]) + b) == CollapseSpaces(DropSpaces(a[1..])) + CollapseSpaces(b)
    ensures CollapseSpaces(a + b) == CollapseSpaces(a) + CollapseSpaces(b)
  {
    var t := a[1..];
    var d := DropSpaces(t);
    HeadOfAppend(a, b);
    CollapseHead(a + b);
    CollapseHead(a);
    DropAppend(t, b);
    if |d| == 0 {
      if |t| > 0 {
        assert IsSpace(t[|t| - 1]) && a[|a| - 1] == t[|t| - 1];
      }
      RunThenPlain(b);
      CollapseNothing(d, CollapseSpaces(b));
    }
    Regroup("-", CollapseSpaces(d), CollapseSpaces(b));
  }

  /** One step of CollapseSpaces on a non-empty string. */
  lemma CollapseHead(s: string)
    requires |s| > 0
    ensures !IsSpace(s[0]) ==> CollapseSpaces(s) == [s[0]] + CollapseSpaces(s[1..])
    ensures IsSpace(s[0]) ==> CollapseSpaces(s) == "-" + CollapseSpaces(DropSpaces(s[1..]))
  {
  }

  lemma CollapseNothing(d: string, y: string)
    requires |d| == 0
    ensures CollapseSpaces(d) + y == y
  {
  }

  /** One step of DropSpaces on a non-empty string. */
  lemma DropHead(s: string)
    requires |s| > 0
    ensures IsSpace(s[0]) ==> DropSpaces(s) == DropSpaces(s[1..])
    ensures !IsSpace(s[0]) ==> DropSpaces(s) == s
  {
  }

  lemma HeadOfAppend(a: string, b: string)
    requires |a| > 0
    ensures (a + b)[0] == a[0] && (a + b)[1..] == a[1..] + b
  {
  }

  lemma Regroup(x: string, y: string, z: string)
    ensures x + (y + z) == (x + y) + z
  {
  }

  /** A part that does not start with `\s` has no leading run to drop. */
  lemma RunThenPlain(b: string)
    requires |b| == 0 || !IsSpace(b[0])
    ensures DropSpaces(b) == b
  {
  }

  /** Dropping the leading run of `t + b`: it stays inside `t` unless `t` is all `\s`. */
  lemma {:induction false} DropAppend(t: string, b: string)
    ensures |DropSpaces(t)| > 0 ==> DropSpaces(t + b) == DropSpaces(t) + b
    ensures |DropSpaces(t)| == 0 ==> DropSpaces(t + b) == DropSpaces(b)
    decreases |t|
  {
    if |t| == 0 {
      assert t + b == b;
    } else {
      HeadOfAppend(t, b);
      DropHead(t);
      DropHead(t + b);
      if IsSpace(t[0]) {
        DropAppend(t[1..], b);
      }
    }
  }

  /**
   * Each run becomes one hyphen in its own place: between a part that does not
   * end in `\s` and a part that does not start with it, a run collapses to "-".
   */
  lemma CollapseRunBetween(a: string, w: string, b: string)
    requires Run(w)
    requires |a| == 0 || !IsSpace(a[|a| - 1])
    requires |b| == 0 || !IsSpace(b[0])
    ensures CollapseSpaces(a + w + b) == CollapseSpaces(a) + "-" + CollapseSpaces(b)
  {
    CollapseWholeRun(w);
    assert Seam(w, b);
    CollapseAppend(w, b);
    assert Seam(a, w + b) by {
      if |a| > 0 {
        assert !IsSpace(a[|a| - 1]);
      }
    }
    CollapseAppend(a, w + b);
    Regroup(a, w, b);
    Regroup(CollapseSpaces(a), "-", CollapseSpaces(b));
  }

  /** A character that is neither `\s` nor a hyphen: collapsing copies these unchanged. */
  predicate Plain(c: char)
  {
    !IsSpace(c) && c != '-'
  }

  /**
   * The number of `\s` runs of `s`: positions holding a `\s` character whose
   * predecessor is not one (`prevSpace` says whether the character before `s` was).
   */
  function RunStarts(s: string, prevSpace: bool): nat
    decreases |s|
  {
    if |s| == 0 then 0
    else (if IsSpace(s[0]) && !prevSpace then 1 else 0) + RunStarts(s[1..], IsSpace(s[0]))
  }

  /**
   * What collapsing does, stated without its recursion: every character other
   * than `\s` and `-` is kept, in order and nothing else joins them, and the
   * hyphens are those of the input plus one per run of `\s` characters.
   */
  lemma {:induction false} CollapseCharacterised(s: string)
    ensures Filter(CollapseSpaces(s), Plain) == Filter(s, Plain)
    ensures Count(CollapseSpaces(s), '-') == Count(s, '-') + RunStarts(s, false)
    decreases |s|
  {
    if |s| > 0 {
      var t := s[1..];
      assert s == [s[0]] + t;
      if IsSpace(s[0]) {
        var d := DropSpaces(t);
        CollapseCharacterised(d);
        DropSpacesInvisible(t);
        CollapseRun(s[0], t);
        FilterCons('-', CollapseSpaces(d), Plain);
        FilterCons(s[0], t, Plain);
        CountAppend("-", CollapseSpaces(d), '-');
        CountAppend([s[0]], t, '-');
      } else {
        CollapseCharacterised(t);
        CollapseKeeps(s[0], t);
        FilterCons(s[0], CollapseSpaces(t), Plain);
        FilterCons(s[0], t, Plain);
        CountAppend([s[0]], CollapseSpaces(t), '-');
        CountAppend([s[0]], t, '-');
      }
    }
  }

  /** Dropping a leading run loses no plain character, no hyphen and no run start after it. */
  lemma {:induction false} DropSpacesInvisible(t: string)
    ensures Filter(DropSpaces(t), Plain) == Filter(t, Plain)
    ensures Count(DropSpaces(t), '-') == Count(t, '-')
    ensures RunStarts(DropSpaces(t), false) == RunStarts(t, true)
    decreases |t|
  {
    if |t| > 0 && IsSpace(t[0]) {
      DropSpacesInvisible(t[1..]);
      assert DropSpaces(t) == DropSpaces(t[1..]);
      assert RunStarts(t, true) == RunStarts(t[1..], true);
      assert Count(t, '-') == Count(t[1..], '-');
      assert Filter(t, Plain) == Filter(t[1..], Plain);
    } else {
      assert DropSpaces(t) == t;
    }
  }

  // ----- sample guides -----

  /** A sample guide: course, skill and project titles. */
  datatype Guide = Guide(courses: seq<string>, skills: seq<string>, projects: seq<string>)

  const SoftwareEngineer := Guide(
    ["JavaScript Fundamentals", "React Development", "Node.js Backend Development"],
    ["JavaScript", "React", "Node.js", "Git", "SQL", "Problem Solving"],
    ["Personal Portfolio Website", "Todo App with Backend", "E-commerce Platform"])

  const DataScientist := Guide(
    ["Python for Data Science", "Machine Learning Basics", "Deep Learning Specialization"],
    ["Python", "Pandas", "NumPy", "Scikit-learn", "TensorFlow", "Statistics"],
    ["Data Analysis Project", "Predictive Model", "Deep Learning Application"])

  /** `SAMPLE_RECOMMENDATIONS[normalizedRole] || SAMPLE_RECOMMENDATIONS['software-engineer']`. */
  function GuideFor(role: string): (g: Guide)
    ensures g == DataScientist <==> NormalizeRole(role) == "data-scientist"
    ensures g == SoftwareEngineer <==> NormalizeRole(role) != "data-scientist"
  {
    var key := NormalizeRole(role);
    assert SoftwareEngineer.skills[0] != DataScientist.skills[0];
    if key == "software-engineer" then SoftwareEngineer
    else if key == "data-scientist" then DataScientist
    else SoftwareEngineer
  }

  // ----- new skills -----

  /** Some skill of the user equals `skill` ignoring case. */
  predicate Known(userSkills: seq<string>, skill: string)
  {
    exists u :: u in userSkills && EqualsIgnoreCase(u, skill)
  }

  /** `profile.skills || []`. */
  function OrEmpty(xs: Option<seq<string>>): seq<string>
  {
    if xs.Some? then xs.value else []
  }

  /**
   * `suggestedNewSkills`: the recommended skills the user does not have yet,
   * compared without case, at most five of them.
   */
  function SuggestedNewSkills(skills: seq<string>, userSkills: seq<string>): (r: seq<string>)
    ensures |r| == Min(5, |Filter(skills, s => !Known(userSkills, s))|)
    ensures forall i :: 0 <= i < |r| ==> r[i] in skills && !Known(userSkills, r[i])
  {
    var unknown := Filter(skills, s => !Known(userSkills, s));
    unknown[..Min(5, |unknown|)]
  }

  /**
   * The suggestions keep the guide's order, and none is dropped unless five came
   * before it: they are the unknown skills of a leading part of the guide, so with
   * five or more unknown skills the kept five are the first five.
   */
  lemma SuggestedInOrder(skills: seq<string>, userSkills: seq<string>)
    ensures IsSubseq(SuggestedNewSkills(skills, userSkills), skills)
    ensures |SuggestedNewSkills(skills, userSkills)| < 5 ==>
      forall s :: s in skills && !Known(userSkills, s) ==> s in SuggestedNewSkills(skills, userSkills)
    ensures exists k ::
      0 <= k <= |skills| && SuggestedNewSkills(skills, userSkills) == Filter(skills[..k], s => !Known(userSkills, s))
  {
    var p := s => !Known(userSkills, s);
    var unknown := Filter(skills, p);
    var k := FilterOfPrefix(skills, p, Min(5, |unknown|));
    FilterIsSubseq(skills, p);
    PrefixIsSubseq(unknown, skills, Min(5, |unknown|));
    if |SuggestedNewSkills(skills, userSkills)| < 5 {
      assert SuggestedNewSkills(skills, userSkills) == unknown;
      forall s | s in skills && !Known(userSkills, s)
        ensures s in unknown
      {
        var i :| 0 <= i < |skills| && skills[i] == s;
        assert p(skills[i]);
      }
    }
  }

  /** A user who already lists every sample skill, in any case, gets no suggestions. */
  lemma NothingNewToSuggest(skills: seq<string>, userSkills: seq<string>)
    requires forall i :: 0 <= i < |skills| ==> Known(userSkills, skills[i])
    ensures SuggestedNewSkills(skills, userSkills) == []
  {
    FilterNone(skills, s => !Known(userSkills, s));
  }

  // ----- roadmaps -----

  datatype MilestoneKind = Course | Project | Skill | Certification | Experience

  datatype MilestoneInput = MilestoneInput(title: string, kind: MilestoneKind)
  datatype Milestone = Milestone(title: string, kind: MilestoneKind, order: nat, isCompleted: bool)

  /** `milestones.map((milestone, index) => ({ ...milestone, order: index + 1 }))`; new milestones are open. */
  function Numbered(ms: seq<MilestoneInput>): (r: seq<Milestone>)
    ensures |r| == |ms|
    ensures forall i :: 0 <= i < |r| ==> r[i].title == ms[i].title && r[i].kind == ms[i].kind && !r[i].isCompleted
  {
    seq(|ms|, i requires 0 <= i < |ms| => Milestone(ms[i].title, ms[i].kind, i + 1, false))
  }

  /** The orders run 1, 2, ..., n: listing by `order` gives the submitted order. */
  lemma NumberedOrders(ms: seq<MilestoneInput>)
    ensures forall i :: 0 <= i < |ms| ==> Numbered(ms)[i].order == i + 1
    ensures forall i, j :: 0 <= i < j < |ms| ==> Numbered(ms)[i].order < Numbered(ms)[j].order
    ensures forall i :: 0 <= i < |ms| ==> 1 <= Numbered(ms)[i].order <= |ms|
  {
  }

  /**
   * `filter(m => m.isCompleted).length`: together with the open milestones it
   * makes up the whole list.
   */
  function CompletedCount(ms: seq<Milestone>): (n: nat)
    ensures n <= |ms|
    ensures n + |Filter(ms, (m: Milestone) => !m.isCompleted)| == |ms|
  {
    FilterSplit(ms, (m: Milestone) => m.isCompleted, (m: Milestone) => !m.isCompleted);
    |Filter(ms, (m: Milestone) => m.isCompleted)|
  }

  /** The count is the full length exactly when every milestone is done, and 0 exactly when none is. */
  lemma CompletedCountEnds(ms: seq<Milestone>)
    ensures CompletedCount(ms) == |ms| <==> forall i :: 0 <= i < |ms| ==> ms[i].isCompleted
    ensures CompletedCount(ms) == 0 <==> forall i :: 0 <= i < |ms| ==> !ms[i].isCompleted
  {
    var p := (m: Milestone) => m.isCompleted;
    var q := (m: Milestone) => !m.isCompleted;
    FilterSplit(ms, p, q);
    if forall i :: 0 <= i < |ms| ==> ms[i].isCompleted {
      FilterNone(ms, q);
    } else {
      var i :| 0 <= i < |ms| && !ms[i].isCompleted;
      assert ms[i] in Filter(ms, q);
    }
    if forall i :: 0 <= i < |ms| ==> !ms[i].isCompleted {
      FilterNone(ms, p);
    } else {
      var i :| 0 <= i < |ms| && ms[i].isCompleted;
      assert ms[i] in Filter(ms, p);
    }
  }

  /**
   * `(completedCount / allMilestones.length) * 100`. A roadmap holds at least
   * one milestone: the schema demands one and the milestone being updated
   * belongs to it.
   */
  function Progress(ms: seq<Milestone>): (p: real)
    requires |ms| >= 1
    ensures 0.0 <= p <= 100.0
  {
    var c := CompletedCount(ms);
    JsNumber.PercentBetween(c as real, |ms| as real, 0.0, 100.0);
    (c as real / |ms| as real) * 100.0
  }

  /** Progress is 100 exactly when every milestone is done, and 0 exactly when none is. */
  lemma ProgressEnds(ms: seq<Milestone>)
    requires |ms| >= 1
    ensures Progress(ms) == 100.0 <==> forall i :: 0 <= i < |ms| ==> ms[i].isCompleted
    ensures Progress(ms) == 0.0 <==> forall i :: 0 <= i < |ms| ==> !ms[i].isCompleted
  {
    CompletedCountEnds(ms);
    ProgressAlgebra(CompletedCount(ms), |ms|);
  }

  lemma ProgressAlgebra(c: nat, n: nat)
    requires 1 <= n && c <= n
    ensures (c as real / n as real) * 100.0 == 100.0 <==> c == n
    ensures (c as real / n as real) * 100.0 == 0.0 <==> c == 0
  {
    var f := c as real / n as real;
    assert f * n as real == c as real;
  }

  // ----- rule-based course recommendations -----

  datatype CourseSuggestion = CourseSuggestion(courseName: string, duration: string, careerPaths: seq<string>)

  const ComputerScience := CourseSuggestion("Computer Science Engineering", "4 years",
    ["Software Engineer", "Data Scientist", "Product Manager"])
  const Medicine := CourseSuggestion("MBBS", "5.5 years",
    ["General Physician", "Specialist Doctor", "Surgeon"])
  const Business := CourseSuggestion("Business Administration", "3 years",
    ["Business Analyst", "Marketing Manager", "Entrepreneur"])

  predicate WantsComputerScience(interests: seq<string>, goals: seq<string>)
  {
    "Technology" in interests || "Software Engineer" in goals
  }

  predicate WantsMedicine(interests: seq<string>, goals: seq<string>)
  {
    "Medicine" in interests || "Doctor" in goals
  }

  predicate WantsBusiness(interests: seq<string>, goals: seq<string>)
  {
    "Business" in interests || "Entrepreneur" in goals
  }

  /** `generateRuleBasedRecommendations(userProfile)`; absent lists count as empty. */
  function RuleBasedCourses(interests: Option<seq<string>>, goals: Option<seq<string>>): (r: seq<CourseSuggestion>)
    ensures |r| <= 3
    ensures IsSubseq(r, [ComputerScience, Medicine, Business])
  {
    var i, g := OrEmpty(interests), OrEmpty(goals);
    var a := if WantsComputerScience(i, g) then [ComputerScience] else [];
    var b := if WantsMedicine(i, g) then [Medicine] else [];
    var c := if WantsBusiness(i, g) then [Business] else [];
    SubseqOfThree(a, b, c, ComputerScience, Medicine, Business);
    a + b + c
  }

  lemma SubseqOfThree<T>(a: seq<T>, b: seq<T>, c: seq<T>, x: T, y: T, z: T)
    requires a == [] || a == [x]
    requires b == [] || b == [y]
    requires c == [] || c == [z]
    ensures IsSubseq(a + b + c, [x, y, z])
  {
    assert [z][1..] == [];
    assert IsSubseq(c, [z]);
    assert [y, z][1..] == [z];
    if b == [] {
      assert b + c == c;
    } else {
      assert (b + c)[1..] == c;
    }
    assert IsSubseq(b + c, [y, z]);
    assert [x, y, z][1..] == [y, z];
    if a == [] {
      assert a + b + c == b + c;
    } else {
      assert (a + b + c)[1..] == b + c;
    }
  }

  /** Each course is suggested exactly when its interest or its goal is listed. */
  lemma RuleBasedCoursesExactly(interests: Option<seq<string>>, goals: Option<seq<string>>)
    ensures var r := RuleBasedCourses(interests, goals); var i, g := OrEmpty(interests), OrEmpty(goals);
      (ComputerScience in r <==> WantsComputerScience(i, g)) &&
      (Medicine in r <==> WantsMedicine(i, g)) &&
      (Business in r <==> WantsBusiness(i, g))
  {
  }

  /** A profile without interests or goals gets no course. */
  lemma NoProfileNoCourses()
    ensures RuleBasedCourses(None, None) == []
    ensures RuleBasedCourses(Some([]), Some([])) == []
  {
  }

  // ----- rule-based career recommendations -----

  /** The career `generateRuleBasedCareerRecommendations` pushes for an interest, if any. */
  function CareerFor(interest: string): Option<string>
  {
    if interest == "Technology" then Some("Software Engineer")
    else if interest == "Medicine" then Some("Medical Doctor")
    else None
  }

  predicate HasCareer(interest: string)
  {
    CareerFor(interest).Some?
  }

  /** `interests.forEach(interest => { switch (interest) ... })`. */
  function RuleBasedCareers(interests: seq<string>): (r: seq<string>)
    ensures |r| <= |interests|
    ensures forall k :: 0 <= k < |r| ==> r[k] == "Software Engineer" || r[k] == "Medical Doctor"
  {
    if |interests| == 0 then []
    else
      var c := CareerFor(interests[0]);
      (if c.Some? then [c.value] else []) + RuleBasedCareers(interests[1..])
  }

  function CareerTitles(interests: seq<string>): (r: seq<string>)
    requires forall k :: 0 <= k < |interests| ==> HasCareer(interests[k])
    ensures |r| == |interests|
  {
    seq(|interests|, k requires 0 <= k < |interests| && HasCareer(interests[k]) => CareerFor(interests[k]).value)
  }

  /**
   * The careers are those of the interests that have one, in interest order:
   * other interests are skipped and a repeated interest repeats its career.
   */
  lemma {:induction false} RuleBasedCareersFilter(interests: seq<string>)
    ensures RuleBasedCareers(interests) == CareerTitles(Filter(interests, HasCareer))
  {
    if |interests| > 0 {
      RuleBasedCareersFilter(interests[1..]);
      var rest := Filter(interests[1..], HasCareer);
      if HasCareer(interests[0]) {
        assert Filter(interests, HasCareer) == [interests[0]] + rest;
        CareerTitlesCons(interests[0], rest);
      } else {
        assert Filter(interests, HasCareer) == rest;
      }
    }
  }

  lemma CareerTitlesCons(h: string, rest: seq<string>)
    requires HasCareer(h) && forall k :: 0 <= k < |rest| ==> HasCareer(rest[k])
    ensures CareerTitles([h] + rest) == [CareerFor(h).value] + CareerTitles(rest)
  {
    var l := [h] + rest;
    assert forall k :: 1 <= k < |l| ==> l[k] == rest[k - 1];
  }

  /** The number of careers is the number of Technology and Medicine interests. */
  lemma {:induction false} RuleBasedCareersCount(interests: seq<string>)
    ensures |RuleBasedCareers(interests)| == Count(interests, "Technology") + Count(interests, "Medicine")
  {
    if |interests| > 0 {
      RuleBasedCareersCount(interests[1..]);
    }
  }
}
