/**
  The create-community page (CreateCommunity.tsx): the slug derived from the
  name as it is typed, and the validation order of the submit handler.

  The slug is `name.toLowerCase().replace(/[^a-z0-9\s-]/g, "")
  .replace(/\s+/g, "-")`: lower-case, drop every character other than a
  lower-case letter, a digit, whitespace or a hyphen, then turn each maximal
  run of whitespace into a single hyphen.
 */
module CreateCommunity {
  import Seqs
  import opened Text

  /** `maxLength` of the name input. */
  const NameMaxLength: nat := 21

  /** A character a derived slug may contain: `[a-z0-9-]`. */
  predicate SlugChar(c: char)
  {
    ('a' <= c <= 'z') || ('0' <= c <= '9') || c == '-'
  }

  /** A character the first replacement keeps: `[a-z0-9\s-]`. */
  predicate Allowed(c: char)
  {
    SlugChar(c) || IsSpace(c)
  }

  /** A lower-case letter or a digit: the characters the slug copies from the name. */
  predicate Alnum(c: char)
  {
    ('a' <= c <= 'z') || ('0' <= c <= '9')
  }

  /** `.replace(/[^a-z0-9\s-]/g, "")`. */
  function RemoveDisallowed(s: string): (r: string)
    ensures forall i :: 0 <= i < |r| ==> Allowed(r[i])
    ensures forall c :: multiset(r)[c] == if Allowed(c) then multiset(s)[c] else 0
    ensures Seqs.IsSubsequence(r, s)
  {
    Seqs.FilterIsSubsequence(s, Allowed);
    Seqs.Filter(s, Allowed)
  }

  /**
    What one character contributes to `.replace(/\s+/g, "-")`: whitespace
    opens a run with a hyphen, or adds nothing to a run already open (`inRun`);
    any other character is copied.
   */
  function Emit(c: char, inRun: bool): string
  {
    if !IsSpace(c) then [c] else if inRun then [] else "-"
  }

  /** `.replace(/\s+/g, "-")`, scanning left to right from the run state `inRun`. */
  function CollapseFrom(s: string, inRun: bool): string
    decreases |s|
  {
    if s == [] then [] else Emit(s[0], inRun) + CollapseFrom(s[1..], IsSpace(s[0]))
  }

  function Collapse(s: string): string
  {
    CollapseFrom(s, false)
  }

  /** The slug the effect derives from a name. */
  function DeriveSlug(name: string): (slug: string)
    ensures forall i :: 0 <= i < |slug| ==> SlugChar(slug[i])
  {
    CollapseChars(RemoveDisallowed(ToLower(name)), false);
    Collapse(RemoveDisallowed(ToLower(name)))
  }

  /** The scan leaves no whitespace, and from allowed characters it yields only slug characters. */
  lemma {:induction false} CollapseChars(s: string, inRun: bool)
    ensures forall i :: 0 <= i < |CollapseFrom(s, inRun)| ==> !IsSpace(CollapseFrom(s, inRun)[i])
    ensures (forall i :: 0 <= i < |s| ==> Allowed(s[i])) ==>
      forall i :: 0 <= i < |CollapseFrom(s, inRun)| ==> SlugChar(CollapseFrom(s, inRun)[i])
    decreases |s|
  {
    if s != [] {
      CollapseChars(s[1..], IsSpace(s[0]));
      assert (forall i :: 0 <= i < |s| ==> Allowed(s[i])) ==> (forall i :: 0 <= i < |s[1..]| ==> Allowed(s[1..][i]));
    }
  }

  // ---------------------------------------------------------------------------
  // Whitespace runs

  /** Whether the scan is inside a whitespace run after reading `a` in state `inRun`. */
  function RunStateAfter(a: string, inRun: bool): bool
  {
    if a == [] then inRun else IsSpace(a[|a| - 1])
  }

  /** The scan of `a + b` is the scan of `a` followed by the scan of `b` in the state `a` left. */
  lemma {:induction false} CollapseAppend(a: string, b: string, inRun: bool)
    ensures CollapseFrom(a + b, inRun) == CollapseFrom(a, inRun) + CollapseFrom(b, RunStateAfter(a, inRun))
    decreases |a|
  {
    if a == [] {
      assert a + b == b;
    } else {
      var tail, next := a[1..], IsSpace(a[0]);
      assert (a + b)[0] == a[0] && (a + b)[1..] == tail + b;
      CollapseCons(a + b, inRun);
      CollapseAppend(tail, b, next);
      CollapseCons(a, inRun);
      RunStateAfterCons(a, inRun);
    }
  }

  /** One step of the scan. */
  lemma CollapseCons(s: string, inRun: bool)
    requires s != []
    ensures CollapseFrom(s, inRun) == Emit(s[0], inRun) + CollapseFrom(s[1..], IsSpace(s[0]))
  {
  }

  lemma RunStateAfterCons(a: string, inRun: bool)
    requires a != []
    ensures RunStateAfter(a[1..], IsSpace(a[0])) == RunStateAfter(a, inRun)
  {
    if a[1..] != [] {
      assert a[1..][|a[1..]| - 1] == a[|a| - 1];
    }
  }

  /** A non-empty whitespace run yields one hyphen outside a run and nothing inside one. */
  lemma {:induction false} CollapseRun(w: string, inRun: bool)
    requires w != [] && forall i :: 0 <= i < |w| ==> IsSpace(w[i])
    ensures CollapseFrom(w, inRun) == if inRun then [] else "-"
    decreases |w|
  {
    if |w| > 1 {
      assert forall i :: 0 <= i < |w[1..]| ==> w[1..][i] == w[i + 1];
      CollapseRun(w[1..], true);
    }
  }

  /** Text that does not begin with whitespace is scanned the same inside or outside a run. */
  lemma CollapseStartsOutsideRun(b: string)
    requires b == [] || !IsSpace(b[0])
    ensures CollapseFrom(b, true) == CollapseFrom(b, false)
  {
  }

  /** Each maximal run of whitespace becomes exactly one hyphen. */
  lemma CollapseMaximalRun(a: string, w: string, b: string)
    requires a == [] || !IsSpace(a[|a| - 1])
    requires w != [] && forall i :: 0 <= i < |w| ==> IsSpace(w[i])
    requires b == [] || !IsSpace(b[0])
    ensures Collapse(a + w + b) == Collapse(a) + "-" + Collapse(b)
  {
    assert a + w + b == a + (w + b);
    assert !RunStateAfter(a, false);
    assert RunStateAfter(w, false) by {
      assert IsSpace(w[|w| - 1]);
    }
    calc {
      CollapseFrom(a + (w + b), false);
      { CollapseAppend(a, w + b, false); }
      CollapseFrom(a, false) + CollapseFrom(w + b, false);
      { CollapseAppend(w, b, false); }
      CollapseFrom(a, false) + (CollapseFrom(w, false) + CollapseFrom(b, true));
      { CollapseRun(w, false); CollapseStartsOutsideRun(b); }
      CollapseFrom(a, false) + ("-" + CollapseFrom(b, false));
    }
  }

  /** Text without whitespace is left as it is. */
  lemma {:induction false} CollapseNoSpace(s: string, inRun: bool)
    requires forall i :: 0 <= i < |s| ==> !IsSpace(s[i])
    ensures CollapseFrom(s, inRun) == s
    decreases |s|
  {
    if s != [] {
      assert forall i :: 0 <= i < |s[1..]| ==> s[1..][i] == s[i + 1];
      CollapseNoSpace(s[1..], false);
      assert [s[0]] + s[1..] == s;
    }
  }

  /** The scan copies letters and digits, in order, and inserts none. */
  lemma {:induction false} CollapseKeepsAlnum(s: string, inRun: bool)
    ensures Seqs.Filter(CollapseFrom(s, inRun), Alnum) == Seqs.Filter(s, Alnum)
    decreases |s|
  {
    if s != [] {
      CollapseKeepsAlnum(s[1..], IsSpace(s[0]));
      Seqs.FilterAppend(Emit(s[0], inRun), CollapseFrom(s[1..], IsSpace(s[0])), Alnum);
      if IsSpace(s[0]) {
        Seqs.FilterNone(Emit(s[0], inRun), Alnum);
      }
    }
  }

  // ---------------------------------------------------------------------------
  // Properties of the derived slug

  /** The letters and digits of the slug are those of the lower-cased name, in the same order. */
  lemma SlugKeepsAlnumInOrder(name: string)
    ensures Seqs.Filter(DeriveSlug(name), Alnum) == Seqs.Filter(ToLower(name), Alnum)
  {
    CollapseKeepsAlnum(RemoveDisallowed(ToLower(name)), false);
    Seqs.FilterFilter(ToLower(name), Allowed, Alnum);
  }

  /** A name without whitespace yields its lower-cased allowed characters, hyphens included, in order. */
  lemma SlugWithoutSpaces(name: string)
    requires forall i :: 0 <= i < |name| ==> !IsSpace(name[i])
    ensures DeriveSlug(name) == Seqs.Filter(ToLower(name), SlugChar)
  {
    var t := ToLower(name);
    assert forall i :: 0 <= i < |t| ==> !IsSpace(t[i]);
    var kept := RemoveDisallowed(t);
    assert forall i :: 0 <= i < |kept| ==> !IsSpace(kept[i]) by {
      forall i | 0 <= i < |kept| ensures !IsSpace(kept[i]) {
        assert kept[i] in t;
      }
    }
    CollapseNoSpace(kept, false);
    Seqs.FilterFilter(t, Allowed, SlugChar);
    assert forall c :: Allowed(c) && !IsSpace(c) ==> SlugChar(c);
    Seqs.FilterAll(kept, SlugChar);
  }

  /** Deriving a slug from a slug changes nothing. */
  lemma SlugIdempotent(name: string)
    ensures DeriveSlug(DeriveSlug(name)) == DeriveSlug(name)
  {
    var s := DeriveSlug(name);
    assert ToLower(s) == s;
    Seqs.FilterAll(s, Allowed);
    CollapseNoSpace(s, false);
  }

  // ---------------------------------------------------------------------------
  // The form

  /** `name`, `slug` and `description`. */
  datatype Form = Form(name: string, slug: string, description: string)

  function InitialForm(): Form
  {
    Form("", "", "")
  }

  /** The toast and navigation of `handleSubmit`. */
  datatype Outcome = NameRequired | DescriptionRequired | Navigate(path: string)

  /**
    Typing a name: the input keeps at most 21 characters. The slug effect
    depends on the name only, so it re-derives the slug when the name changes
    and leaves a hand-edited slug alone when it does not.
   */
  function SetName(f: Form, typed: string): (r: Form)
    ensures |r.name| <= NameMaxLength
    ensures r.name <= typed && (|typed| <= NameMaxLength ==> r.name == typed)
    ensures r.name != f.name ==> r.slug == DeriveSlug(r.name)
    ensures r.name == f.name ==> r.slug == f.slug
    ensures r.description == f.description
  {
    var name := if |typed| <= NameMaxLength then typed else typed[..NameMaxLength];
    f.(name := name, slug := if name == f.name then f.slug else DeriveSlug(name))
  }

  /** Editing the slug by hand; the next change of name overwrites it. */
  function SetSlug(f: Form, slug: string): (r: Form)
    ensures r.slug == slug && r.name == f.name && r.description == f.description
  {
    f.(slug := slug)
  }

  function SetDescription(f: Form, description: string): (r: Form)
    ensures r.description == description && r.name == f.name && r.slug == f.slug
  {
    f.(description := description)
  }

  /**
    A hand-edited slug survives re-entering the same name, and the first
    different name overwrites it with the derived slug.
   */
  lemma HandEditedSlug(f: Form, slug: string, typed: string)
    requires |f.name| <= NameMaxLength && |typed| <= NameMaxLength
    ensures SetName(SetSlug(f, slug), f.name).slug == slug
    ensures typed != f.name ==> SetName(SetSlug(f, slug), typed).slug == DeriveSlug(typed)
  {
  }

  /**
    `handleSubmit`: a blank name is refused first, then a blank description;
    otherwise the page navigates to the community at the current slug.
   */
  function HandleSubmit(f: Form): (r: Outcome)
    ensures r == NameRequired <==> !HasText(f.name)
    ensures r == DescriptionRequired <==> HasText(f.name) && !HasText(f.description)
    ensures r.Navigate? <==> HasText(f.name) && HasText(f.description)
    ensures r.Navigate? ==> r.path == "/community/" + f.slug
  {
    BlankIffNoText(f.name);
    BlankIffNoText(f.description);
    if IsBlank(f.name) then NameRequired
    else if IsBlank(f.description) then DescriptionRequired
    else Navigate("/community/" + f.slug)
  }

  /**
    Filling in a non-blank name (of at most 21 characters) and description
    and submitting navigates to the slug derived from the name.
   */
  lemma FillAndSubmit(name: string, description: string)
    requires |name| <= NameMaxLength && HasText(name) && HasText(description)
    ensures HandleSubmit(SetDescription(SetName(InitialForm(), name), description))
         == Navigate("/community/" + DeriveSlug(name))
  {
  }
}
