/** The slug normaliser of backend/api/routes_ai.py and the slug validator of
    backend/api/routes_data_sources.py that its results must satisfy. */
module Slug {

  predicate IsLower(c: char) { 'a' <= c <= 'z' }
  predicate IsDigit(c: char) { '0' <= c <= '9' }
  predicate IsAlnum(c: char) { IsLower(c) || IsDigit(c) }
  predicate IsSlugChar(c: char) { IsAlnum(c) || c == '_' }

  predicate SlugChars(s: string) { forall i :: 0 <= i < |s| ==> IsSlugChar(s[i]) }

  predicate NoDouble(s: string) {
    forall i :: 0 < i < |s| ==> !(s[i - 1] == '_' && s[i] == '_')
  }

  /** `_SLUG_RE`: a letter, 1 to 48 letters, digits or underscores, a letter or digit. */
  predicate ValidSlug(s: string) {
    3 <= |s| <= 50 && IsLower(s[0]) && IsAlnum(s[|s| - 1]) && SlugChars(s)
  }

  // ----- The steps of the normaliser ----------------------------------------------------

  function DropRun(t: string, underscores: bool): (r: string)
    ensures |r| <= |t|
  {
    if t != "" && (if underscores then t[0] == '_' else !IsSlugChar(t[0]))
    then DropRun(t[1..], underscores) else t
  }

  /** `[^a-z0-9_]+` replaced by one underscore per run. */
  function SubRuns(t: string): string
    decreases |t|
  {
    if t == "" then ""
    else if IsSlugChar(t[0]) then [t[0]] + SubRuns(t[1..])
    else "_" + SubRuns(DropRun(t[1..], false))
  }

  /** `_+` replaced by one underscore. */
  function Collapse(t: string): string
    decreases |t|
  {
    if t == "" then ""
    else if t[0] != '_' then [t[0]] + Collapse(t[1..])
    else "_" + Collapse(DropRun(t[1..], true))
  }

  function StripLeft(t: string): string {
    if t != "" && t[0] == '_' then StripLeft(t[1..]) else t
  }

  function StripRight(t: string): string {
    if t != "" && t[|t| - 1] == '_' then StripRight(t[..|t| - 1]) else t
  }

  function Strip(t: string): string { StripRight(StripLeft(t)) }

  function Take50(t: string): string { if |t| <= 50 then t else t[..50] }

  function Clean(lowered: string): string { Strip(Collapse(SubRuns(lowered))) }

  /** A leading digit gets "s_" in front, a text of one or two characters the prefix. */
  function Lengthen(t: string, prefix: string): string
    requires t != ""
  {
    var u := if IsDigit(t[0]) then "s_" + t else t;
    if |u| < 3 then Strip(prefix + "_" + u) else u
  }

  /** The closing checks of the normaliser. */
  function Finish(w: string, prefix: string): string
    requires prefix != ""
  {
    var t := if w == "" then prefix else w;
    var t := if !IsLower(t[0]) then "s" + t else t;
    var t := if IsAlnum(t[|t| - 1]) then t
             else if |t| > 1 then t[..|t| - 1] + "x" else prefix + "x";
    Take50(t)
  }

  /** `_slugify_identifier` after the text has been stripped and lower-cased. */
  function Slugify(lowered: string, prefix: string): string
    requires prefix != ""
  {
    var t := Clean(lowered);
    Finish(StripRight(Take50(Lengthen(if t == "" then prefix else t, prefix))), prefix)
  }

  // ----- What each step gives ---------------------------------------------------------------

  lemma {:induction false} SubRunsChars(t: string)
    ensures SlugChars(SubRuns(t))
    decreases |t|
  {
    if t != "" {
      if IsSlugChar(t[0]) {
        SubRunsChars(t[1..]);
      } else {
        SubRunsChars(DropRun(t[1..], false));
      }
    }
  }

  lemma {:induction false} DropRunStops(t: string)
    ensures var r := DropRun(t, true);
            (r != "" ==> r[0] != '_') && (SlugChars(t) ==> SlugChars(r))
  {
    if t != "" && t[0] == '_' {
      DropRunStops(t[1..]);
    }
  }

  lemma {:induction false} CollapseSingles(t: string)
    requires SlugChars(t)
    ensures SlugChars(Collapse(t)) && NoDouble(Collapse(t))
    ensures t != "" ==> Collapse(t) != "" && Collapse(t)[0] == t[0]
    decreases |t|
  {
    if t != "" {
      if t[0] != '_' {
        CollapseSingles(t[1..]);
      } else {
        DropRunStops(t[1..]);
        CollapseSingles(DropRun(t[1..], true));
      }
    }
  }

  /** Tidy text: slug characters, no double underscore. */
  predicate Tidy(s: string) { SlugChars(s) && NoDouble(s) }

  predicate Trimmed(s: string) { s != "" ==> s[0] != '_' && s[|s| - 1] != '_' }

  lemma {:induction false} StripLeftTidy(t: string)
    requires Tidy(t)
    ensures Tidy(StripLeft(t)) && (StripLeft(t) != "" ==> StripLeft(t)[0] != '_')
    ensures t != "" && t[0] != '_' ==> StripLeft(t) == t
  {
    if t != "" && t[0] == '_' {
      TailTidy(t);
      StripLeftTidy(t[1..]);
    }
  }

  lemma TailTidy(t: string)
    requires Tidy(t) && t != ""
    ensures Tidy(t[1..])
  {}

  lemma {:induction false} StripRightTidy(t: string)
    requires Tidy(t)
    ensures var r := StripRight(t);
            && Tidy(r) && (r != "" ==> r[|r| - 1] != '_')
            && (r != "" ==> r[0] == t[0] && |r| >= |t| - 1)
            && (t != "" && t[0] != '_' ==> r != "")
            && (t != "" && t[|t| - 1] != '_' ==> r == t)
    decreases |t|
  {
    if t != "" && t[|t| - 1] == '_' {
      var u := t[..|t| - 1];
      if u != "" {
        assert t[|t| - 2] != '_';
      }
      StripRightTidy(u);
    }
  }

  lemma StripTidy(t: string)
    requires Tidy(t)
    ensures Tidy(Strip(t)) && Trimmed(Strip(t))
    ensures t != "" && t[0] != '_' && t[|t| - 1] != '_' ==> Strip(t) == t
  {
    StripLeftTidy(t);
    StripRightTidy(StripLeft(t));
  }

  /** A prefix that is itself a tidy name; the three in use are. */
  predicate GoodPrefix(p: string) {
    3 <= |p| && Tidy(p) && IsLower(p[0]) && p[|p| - 1] != '_'
  }

  lemma PrefixesInUse()
    ensures GoodPrefix("custom") && GoodPrefix("strategy") && GoodPrefix("source")
  {}

  lemma JoinTidy(a: string, b: string)
    requires Tidy(a) && Tidy(b) && a != "" && b != "" && a[|a| - 1] != '_' && b[0] != '_'
    ensures var s := a + "_" + b;
            Tidy(s) && s[0] == a[0] && s[|s| - 1] == b[|b| - 1]
  {}

  /** The text after the digit and length fixes: tidy, trimmed, at least three long, led by a letter. */
  lemma Lengthened(t: string, prefix: string)
    requires Tidy(t) && Trimmed(t) && t != "" && GoodPrefix(prefix)
    ensures var v := Lengthen(t, prefix);
            Tidy(v) && Trimmed(v) && |v| >= 3 && IsLower(v[0])
  {
    assert IsSlugChar(t[0]);
    var u := if IsDigit(t[0]) then "s_" + t else t;
    if IsDigit(t[0]) {
      assert "s" + "_" + t == "s_" + t;
      JoinTidy("s", t);
    }
    if |u| < 3 {
      JoinTidy(prefix, u);
      StripTidy(prefix + "_" + u);
    }
  }

  lemma Truncated(v: string)
    requires Tidy(v) && Trimmed(v) && |v| >= 3 && IsLower(v[0])
    ensures var w := StripRight(Take50(v)); ValidSlug(w) && NoDouble(w)
  {
    var cut := Take50(v);
    assert Tidy(cut);
    StripRightTidy(cut);
    var w := StripRight(cut);
    assert IsSlugChar(w[|w| - 1]);
  }

  lemma CleanTidy(lowered: string)
    ensures Tidy(Clean(lowered)) && Trimmed(Clean(lowered))
  {
    SubRunsChars(lowered);
    CollapseSingles(SubRuns(lowered));
    StripTidy(Collapse(SubRuns(lowered)));
  }

  /** The closing checks leave a valid slug alone. */
  lemma FinishKeeps(w: string, prefix: string)
    requires ValidSlug(w) && prefix != ""
    ensures Finish(w, prefix) == w
  {}

  /** For every text and every such prefix the result passes the data-source slug check and
      has no double underscore. */
  lemma SlugIsValid(lowered: string, prefix: string)
    requires GoodPrefix(prefix)
    ensures ValidSlug(Slugify(lowered, prefix)) && NoDouble(Slugify(lowered, prefix))
  {
    CleanTidy(lowered);
    var t := if Clean(lowered) == "" then prefix else Clean(lowered);
    Lengthened(t, prefix);
    var v := Lengthen(t, prefix);
    Truncated(v);
    FinishKeeps(StripRight(Take50(v)), prefix);
  }

  // ----- What the slug says: the words of the text ---------------------------------------------

  function RunLength(t: string): (n: nat)
    ensures n <= |t| && (forall i :: 0 <= i < n ==> IsAlnum(t[i])) && (n < |t| ==> !IsAlnum(t[n]))
  {
    if t == "" || !IsAlnum(t[0]) then 0 else 1 + RunLength(t[1..])
  }

  /** The maximal runs of letters and digits. */
  function Words(t: string): seq<string>
    decreases |t|
  {
    if t == "" then []
    else if !IsAlnum(t[0]) then Words(t[1..])
    else [t[..RunLength(t)]] + Words(t[RunLength(t)..])
  }

  function Join(ws: seq<string>): string {
    if ws == [] then "" else if |ws| == 1 then ws[0] else ws[0] + "_" + Join(ws[1..])
  }

  /** One pass: every run of other characters becomes one underscore. */
  function Squeeze(t: string): string {
    if t == "" then ""
    else if IsAlnum(t[0]) then [t[0]] + Squeeze(t[1..])
    else var r := Squeeze(t[1..]); if r != "" && r[0] == '_' then r else "_" + r
  }

  lemma CollapseUnderscore(s: string)
    ensures Collapse("_" + s) == if s != "" && s[0] == '_' then Collapse(s) else "_" + Collapse(s)
  {
    assert ("_" + s)[1..] == s;
  }

  lemma {:induction false} SubRunsBad(c: char, u: string)
    requires !IsSlugChar(c)
    ensures SubRuns([c] + u) == if u != "" && !IsSlugChar(u[0]) then SubRuns(u) else "_" + SubRuns(u)
  {
    assert ([c] + u)[1..] == u;
  }

  /** The two substitutions together are the one pass. */
  lemma {:induction false} CollapseIsSqueeze(t: string)
    ensures Collapse(SubRuns(t)) == Squeeze(t)
    ensures t != "" && !IsAlnum(t[0]) ==> Squeeze(t) != "" && Squeeze(t)[0] == '_'
    ensures NoDouble(Squeeze(t))
    decreases |t|
  {
    if t != "" {
      var c, u := t[0], t[1..];
      assert t == [c] + u;
      CollapseIsSqueeze(u);
      SubRunsChars(u);
      CollapseSingles(SubRuns(u));
      if IsAlnum(c) {
        assert ([c] + SubRuns(u))[1..] == SubRuns(u);
      } else {
        if c != '_' { SubRunsBad(c, u); }
        CollapseUnderscore(SubRuns(u));
      }
    }
  }

  lemma {:induction false} SqueezeRun(t: string, n: nat)
    requires n <= |t| && forall i :: 0 <= i < n ==> IsAlnum(t[i])
    ensures Squeeze(t) == t[..n] + Squeeze(t[n..])
    decreases n
  {
    if n > 0 {
      SqueezeRun(t[1..], n - 1);
      assert t[1..][..n - 1] == t[1..n] && t[1..][n - 1..] == t[n..];
      assert t[..n] == [t[0]] + t[1..n];
    }
  }

  lemma {:induction false} StripRightConcat(a: string, b: string)
    requires StripRight(b) != "" || (a != "" && a[|a| - 1] != '_')
    ensures StripRight(a + b) == a + StripRight(b)
    decreases |b|
  {
    if b == "" {
      assert a + b == a;
    } else {
      assert (a + b)[..|a + b| - 1] == a + b[..|b| - 1];
      if b[|b| - 1] == '_' {
        StripRightConcat(a, b[..|b| - 1]);
      }
    }
  }

  lemma {:induction false} JoinEmpty(t: string)
    ensures Join(Words(t)) == "" <==> Words(t) == []
    decreases |t|
  {
    if t != "" && !IsAlnum(t[0]) {
      JoinEmpty(t[1..]);
    }
  }

  /** Cleaning keeps exactly the words of the text, in order, one underscore between two. */
  lemma {:induction false} CleanIsWords(t: string)
    ensures Clean(t) == Join(Words(t))
    decreases |t|
  {
    CollapseIsSqueeze(t);
    if t != "" {
      if !IsAlnum(t[0]) {
        CollapseIsSqueeze(t[1..]);
        CleanIsWords(t[1..]);
        var r := Squeeze(t[1..]);
        assert ("_" + r)[1..] == r;
      } else {
        CleanRun(t, RunLength(t));
      }
    }
  }

  lemma CleanRun(t: string, n: nat)
    requires n == RunLength(t) && 0 < n
    ensures Clean(t) == Join(Words(t))
    decreases |t|, 0
  {
    var w, u := t[..n], t[n..];
    CleanIsWords(u);
    CollapseIsSqueeze(t);
    CollapseIsSqueeze(u);
    SqueezeRun(t, n);
    JoinEmpty(u);
    assert IsAlnum(w[0]) && IsAlnum(w[n - 1]);
    if u == "" {
      StripRightConcat(w, "");
    } else {
      var r := Squeeze(u)[1..];
      assert Squeeze(u) == "_" + r;
      assert r != "" ==> r[0] != '_' by { assert r != "" ==> Squeeze(u)[1 - 1] == '_' && Squeeze(u)[1] == r[0]; }
      assert StripLeft(Squeeze(u)) == r;
      if StripRight(r) == "" {
        StripRightEmpty(r);
        StripRightConcat(w, "_");
      } else {
        StripRightConcat("_", r);
        StripRightConcat(w, "_" + r);
        assert w + ("_" + StripRight(r)) == w + "_" + StripRight(r);
      }
    }
  }

  lemma {:induction false} StripRightEmpty(r: string)
    requires StripRight(r) == "" && (r != "" ==> r[0] != '_')
    ensures r == ""
  {
    if r != "" && r[|r| - 1] == '_' {
      StripRightEmpty(r[..|r| - 1]);
    }
  }

  // ----- Fixed points -----------------------------------------------------------------------------

  lemma {:induction false} SubRunsKeeps(t: string)
    requires SlugChars(t)
    ensures SubRuns(t) == t
    decreases |t|
  {
    if t != "" {
      SubRunsKeeps(t[1..]);
      assert [t[0]] + t[1..] == t;
    }
  }

  lemma {:induction false} CollapseKeeps(t: string)
    requires Tidy(t)
    ensures Collapse(t) == t
    decreases |t|
  {
    if t != "" {
      TailTidy(t);
      CollapseKeeps(t[1..]);
      assert [t[0]] + t[1..] == t;
      if t[0] == '_' && |t| > 1 {
        assert t[1 - 1] == '_';
        assert t[1..][0] != '_';
      }
    }
  }

  /** Exactly the valid slugs without a double underscore are fixed points. */
  lemma FixedIff(s: string, prefix: string)
    requires GoodPrefix(prefix)
    ensures Slugify(s, prefix) == s <==> ValidSlug(s) && NoDouble(s)
  {
    SlugIsValid(s, prefix);
    if ValidSlug(s) && NoDouble(s) {
      CleanKeeps(s);
      StripRightTidy(s);
      FinishKeeps(s, prefix);
    }
  }

  lemma CleanKeeps(t: string)
    requires Tidy(t) && Trimmed(t)
    ensures Clean(t) == t
  {
    SubRunsKeeps(t);
    CollapseKeeps(t);
    StripTidy(t);
  }

  /** The slug in terms of the text: its words joined by underscores, cut after 50 characters;
      the prefix stands in for no words and in front of very short ones, "s_" before a digit. */
  lemma SlugSaysWords(lowered: string, prefix: string)
    requires GoodPrefix(prefix) && |prefix| <= 47
    ensures var t, slug := Join(Words(lowered)), Slugify(lowered, prefix);
            if t == "" then slug == prefix
            else if IsDigit(t[0]) then slug == Slugify("s_" + t, prefix)
            else if |t| < 3 then slug == prefix + "_" + t
            else if |t| <= 50 then slug == t
            else slug == if t[49] == '_' then t[..49] else t[..50]
  {
    CleanIsWords(lowered);
    CleanTidy(lowered);
    var t := Clean(lowered);
    if t != "" && IsDigit(t[0]) {
      assert "s" + "_" + t == "s_" + t;
      JoinTidy("s", t);
      CleanKeeps("s_" + t);
    } else {
      WordsCut(if t == "" then prefix else t, prefix);
    }
  }

  lemma WordsCut(t: string, prefix: string)
    requires GoodPrefix(prefix) && |prefix| <= 47 && Tidy(t) && Trimmed(t) && t != "" && !IsDigit(t[0])
    ensures var slug := Finish(StripRight(Take50(Lengthen(t, prefix))), prefix);
            if |t| < 3 then slug == prefix + "_" + t
            else if |t| <= 50 then slug == t
            else slug == if t[49] == '_' then t[..49] else t[..50]
  {
    Lengthened(t, prefix);
    var v := Lengthen(t, prefix);
    Truncated(v);
    FinishKeeps(StripRight(Take50(v)), prefix);
    if |t| < 3 {
      JoinTidy(prefix, t);
      StripTidy(prefix + "_" + t);
    }
    CutAt(v);
  }

  lemma CutAt(v: string)
    requires Tidy(v) && Trimmed(v) && v != ""
    ensures StripRight(Take50(v)) == if |v| <= 50 then v else if v[49] == '_' then v[..49] else v[..50]
  {
    if |v| > 50 && v[49] == '_' {
      assert v[48] != '_' && v[..50][..49] == v[..49];
    }
  }

  /** Normalising twice is normalising once, for every way of trimming and lower-casing that
      leaves lower-case identifiers alone. */
  lemma SlugifyIdempotent(fold: string -> string, raw: string, prefix: string)
    requires GoodPrefix(prefix) && forall s :: SlugChars(s) ==> fold(s) == s
    ensures var slug := Slugify(fold(raw), prefix);
            ValidSlug(fold(slug)) && Slugify(fold(slug), prefix) == slug
  {
    SlugIsValid(fold(raw), prefix);
    var slug := Slugify(fold(raw), prefix);
    FixedIff(slug, prefix);
  }
}
