/** The categories page: the slug normaliser used for card images, the base
    path, the three link builders and the subject search. Card rendering is
    not modelled. */
module Categories {
  import opened Wrappers
  import opened Text
  import Utils

  // ---------- slugify ----------

  /** `.replace(/&/g, "and")`. */
  function ReplaceAmp(s: string): (r: string)
    ensures '&' !in r
  {
    if s == [] then []
    else (if s[0] == '&' then "and" else [s[0]]) + ReplaceAmp(s[1..])
  }

  /** The characters of a run of `[^a-z0-9]`, skipped. */
  function SkipRun(s: string): (r: string)
    ensures r == [] || IsLowerAlnum(r[0])
    ensures |r| <= |s|
  {
    if s != [] && !IsLowerAlnum(s[0]) then SkipRun(s[1..]) else s
  }

  predicate NoDoubleDash(s: string)
  {
    forall i :: 0 <= i < |s| - 1 ==> s[i] != '-' || s[i + 1] != '-'
  }

  predicate InSlugAlphabet(s: string)
  {
    forall i :: 0 <= i < |s| ==> IsLowerAlnum(s[i]) || s[i] == '-'
  }

  /** The shape every slug has: `[a-z0-9-]` only, no dash at either end and
      no two dashes in a row. */
  predicate IsSlug(s: string)
  {
    InSlugAlphabet(s) && NoDoubleDash(s) && (s == [] || (s[0] != '-' && s[|s| - 1] != '-'))
  }

  /** `.replace(/[^a-z0-9]+/g, "-")`: each maximal run of other characters
      becomes one dash. */
  function Collapse(s: string): (r: string)
    ensures InSlugAlphabet(r) && NoDoubleDash(r)
    ensures s == [] ==> r == []
    ensures s != [] && IsLowerAlnum(s[0]) ==> r != [] && r[0] == s[0]
    decreases |s|
  {
    if s == [] then []
    else if IsLowerAlnum(s[0]) then [s[0]] + Collapse(s[1..])
    else "-" + Collapse(SkipRun(s[1..]))
  }

  function DropLeadingDash(s: string): (r: string)
    requires InSlugAlphabet(s) && NoDoubleDash(s)
    ensures InSlugAlphabet(r) && NoDoubleDash(r)
    ensures r == [] || r[0] != '-'
    ensures r == s || (s != [] && r == s[1..])
  {
    if s != [] && s[0] == '-' then
      assert |s| > 1 ==> s[1] != '-';
      s[1..]
    else s
  }

  function DropTrailingDash(s: string): (r: string)
    requires InSlugAlphabet(s) && NoDoubleDash(s)
    requires s == [] || s[0] != '-'
    ensures IsSlug(r)
    ensures r == s || (s != [] && r == s[..|s| - 1])
  {
    if s != [] && s[|s| - 1] == '-' then
      assert |s| > 1 ==> s[|s| - 2] != '-';
      s[..|s| - 1]
    else s
  }

  /** `.replace(/(^-|-$)+/g, "")`: a dash at the start and a dash at the end go. */
  function TrimDashes(s: string): (r: string)
    requires InSlugAlphabet(s) && NoDoubleDash(s)
    ensures IsSlug(r)
  {
    DropTrailingDash(DropLeadingDash(s))
  }

  /** `slugify`: lower-case, "&" spelt "and", other runs of non-alphanumerics
      as single dashes, and no dash at the ends. A missing value gives "". */
  function Slugify(str: Option<string>): (r: string)
    ensures IsSlug(r)
    ensures str.None? ==> r == ""
  {
    var s := if str.Some? then str.value else "";
    TrimDashes(Collapse(ReplaceAmp(Lower(s))))
  }

  lemma {:induction false} ReplaceAmpKeeps(s: string)
    requires '&' !in s
    ensures ReplaceAmp(s) == s
  {
    if s != [] {
      ReplaceAmpKeeps(s[1..]);
    }
  }

  lemma {:induction false} CollapseKeeps(s: string)
    requires InSlugAlphabet(s) && NoDoubleDash(s)
    ensures Collapse(s) == s
    decreases |s|
  {
    if s != [] {
      var t := s[1..];
      assert InSlugAlphabet(t) && NoDoubleDash(t);
      if s[0] == '-' {
        assert t != [] ==> t[0] != '-';
        assert SkipRun(t) == t;
      }
      CollapseKeeps(t);
    }
  }

  /** A slug is its own slug, so `slugify` is idempotent. */
  lemma SlugIsFixedPoint(s: string)
    requires IsSlug(s)
    ensures Slugify(Some(s)) == s
  {
    assert Lower(s) == s by {
      forall i | 0 <= i < |s| ensures Lower(s)[i] == s[i] {
        assert IsLowerAlnum(s[i]) || s[i] == '-';
      }
    }
    ReplaceAmpKeeps(s);
    CollapseKeeps(s);
  }

  lemma SlugifyIdempotent(str: Option<string>)
    ensures Slugify(Some(Slugify(str))) == Slugify(str)
  {
    SlugIsFixedPoint(Slugify(str));
  }

  lemma {:induction false} ReplaceAmpAppend(a: string, b: string)
    ensures ReplaceAmp(a + b) == ReplaceAmp(a) + ReplaceAmp(b)
  {
    if a != [] {
      var head := if a[0] == '&' then "and" else [a[0]];
      assert (a + b)[0] == a[0] && (a + b)[1..] == a[1..] + b;
      assert ReplaceAmp(a + b) == head + ReplaceAmp(a[1..] + b);
      ReplaceAmpAppend(a[1..], b);
      assert ReplaceAmp(a) == head + ReplaceAmp(a[1..]);
    } else {
      assert a + b == b;
    }
  }

  /** Only `[a-z0-9]`. */
  predicate Alnum(s: string)
  {
    forall i :: 0 <= i < |s| ==> IsLowerAlnum(s[i])
  }

  /** A run of slug characters passes through `Collapse` unchanged. */
  lemma {:induction false} CollapseAlnumPrefix(a: string, b: string)
    requires Alnum(a)
    ensures Collapse(a + b) == a + Collapse(b)
  {
    if a != [] {
      assert (a + b)[0] == a[0] && (a + b)[1..] == a[1..] + b;
      assert Collapse(a + b) == [a[0]] + Collapse(a[1..] + b);
      assert Alnum(a[1..]);
      CollapseAlnumPrefix(a[1..], b);
      assert a == [a[0]] + a[1..];
    } else {
      assert a + b == b;
    }
  }

  /** A word of ASCII letters (either case) and digits. */
  predicate IsWord(w: string)
  {
    w != [] && forall i :: 0 <= i < |w| ==> IsLowerAlnum(LowerChar(w[i]))
  }

  lemma {:induction false} LowerAppend(a: string, b: string)
    ensures Lower(a + b) == Lower(a) + Lower(b)
  {
    var s := a + b;
    assert forall i :: 0 <= i < |s| ==> Lower(s)[i] == (Lower(a) + Lower(b))[i];
  }

  lemma {:induction false} LowerWord(a: string)
    requires IsWord(a)
    ensures IsWord(Lower(a)) && Alnum(Lower(a))
  {
  }

  lemma {:induction false} AlnumHasNoAmp(s: string)
    requires Alnum(s)
    ensures '&' !in s
  {
    assert forall i :: 0 <= i < |s| ==> s[i] != '&';
  }

  lemma {:induction false} ReplaceAmpAround(b: string)
    ensures ReplaceAmp(" & " + b) == " and " + ReplaceAmp(b)
  {
    var s2 := " " + b;
    var s1 := "&" + s2;
    var s0 := " " + s1;
    assert s0 == " & " + b;
    assert s2[0] == ' ' && s2[1..] == b;
    assert s1[0] == '&' && s1[1..] == s2;
    assert s0[0] == ' ' && s0[1..] == s1;
    assert ReplaceAmp(s2) == " " + ReplaceAmp(b);
    assert ReplaceAmp(s1) == "and" + ReplaceAmp(s2);
    assert ReplaceAmp(s0) == " " + ReplaceAmp(s1);
    assert " " + ("and" + (" " + ReplaceAmp(b))) == " and " + ReplaceAmp(b);
  }

  lemma {:induction false} AmpWords(a: string, b: string)
    requires Alnum(a) && Alnum(b)
    ensures ReplaceAmp(a + " & " + b) == a + " and " + b
  {
    AlnumHasNoAmp(a);
    AlnumHasNoAmp(b);
    ReplaceAmpKeeps(a);
    ReplaceAmpKeeps(b);
    var rest := " & " + b;
    assert a + " & " + b == a + rest;
    ReplaceAmpAppend(a, rest);
    ReplaceAmpAround(b);
    assert a + (" and " + b) == a + " and " + b;
  }

  /** A space before a word becomes one dash. */
  lemma {:induction false} CollapseSpace(x: string)
    requires x != [] && IsLowerAlnum(x[0])
    ensures Collapse(" " + x) == "-" + Collapse(x)
  {
    var s := " " + x;
    assert s[0] == ' ' && s[1..] == x;
  }

  /** A word between two single spaces turns into the word between two dashes. */
  lemma {:induction false} CollapseSpaced(w: string, b: string)
    requires Alnum(w) && w != [] && Alnum(b) && b != []
    ensures Collapse(" " + (w + (" " + b))) == "-" + (w + ("-" + b))
  {
    var t4 := " " + b;
    var t3 := w + t4;
    assert Collapse(" " + t3) == "-" + Collapse(t3) by {
      assert t3[0] == w[0];
      CollapseSpace(t3);
    }
    assert Collapse(t3) == w + Collapse(t4) by {
      CollapseAlnumPrefix(w, t4);
    }
    assert Collapse(t4) == "-" + b by {
      CollapseSpace(b);
      assert InSlugAlphabet(b) && NoDoubleDash(b);
      CollapseKeeps(b);
    }
  }

  lemma {:induction false} CollapseWords(a: string, b: string)
    requires Alnum(a) && Alnum(b) && b != []
    ensures Collapse(a + " and " + b) == a + "-and-" + b
  {
    var mid := " " + ("and" + (" " + b));
    SpaceAndSpace(a, b);
    CollapseAlnumPrefix(a, mid);
    assert Alnum("and");
    CollapseSpaced("and", b);
    DashAndDash(a, b);
  }

  lemma SpaceAndSpace(a: string, b: string)
    ensures a + " and " + b == a + (" " + ("and" + (" " + b)))
  {
    var l, r := a + " and " + b, a + (" " + ("and" + (" " + b)));
    assert |l| == |r|;
    forall i | 0 <= i < |l|
      ensures l[i] == r[i]
    {
      if i < |a| + 5 {
        assert l[i] == (a + " and ")[i];
      }
    }
  }

  lemma DashAndDash(a: string, b: string)
    ensures a + ("-" + ("and" + ("-" + b))) == a + "-and-" + b
  {
    var l, r := a + ("-" + ("and" + ("-" + b))), a + "-and-" + b;
    assert |l| == |r|;
    forall i | 0 <= i < |l|
      ensures l[i] == r[i]
    {
      if i < |a| + 5 {
        assert r[i] == (a + "-and-")[i];
      }
    }
  }

  lemma {:induction false} LowerAround(a: string, b: string)
    ensures Lower(a + " & " + b) == Lower(a) + " & " + Lower(b)
  {
    LowerAppend(a + " & ", b);
    LowerAppend(a, " & ");
    assert Lower(" & ") == " & ";
  }

  /** A slug-shaped word pair survives the removal of edge dashes. */
  lemma {:induction false} DashesKept(r: string, la: string, lb: string)
    requires la != [] && lb != [] && r == la + "-and-" + lb
    requires la[0] != '-' && lb[|lb| - 1] != '-'
    requires InSlugAlphabet(r) && NoDoubleDash(r)
    ensures TrimDashes(r) == r
  {
    assert r[0] == la[0] && r[|r| - 1] == lb[|lb| - 1];
  }

  /** "&" is spelt "and" before the other characters are replaced, so two
      words around " & " become "first-and-second", lower-cased. */
  lemma AmpBetweenWords(a: string, b: string)
    requires IsWord(a) && IsWord(b)
    ensures Slugify(Some(a + " & " + b)) == Lower(a) + "-and-" + Lower(b)
  {
    var la, lb := Lower(a), Lower(b);
    LowerWord(a);
    LowerWord(b);
    var r := la + "-and-" + lb;
    assert Collapse(ReplaceAmp(Lower(a + " & " + b))) == r by {
      LowerAround(a, b);
      AmpWords(la, lb);
      CollapseWords(la, lb);
    }
    DashesKept(r, la, lb);
  }

  lemma ScienceAndNatureSplit()
    ensures "Science & Nature" == "Science" + " & " + "Nature"
  {
  }

  lemma ScienceAndNatureAreWords()
    ensures IsWord("Science") && IsWord("Nature")
  {
  }

  /** A capitalised word lowers to its lower-case initial and the rest as it is. */
  lemma LowerCapitalised(w: string, l: char)
    requires |w| > 0 && LowerChar(w[0]) == l
    requires forall i :: 1 <= i < |w| ==> !IsAsciiUpper(w[i])
    ensures Lower(w) == [l] + w[1..]
  {
    var r := Lower(w);
    assert forall i :: 0 <= i < |w| ==> r[i] == ([l] + w[1..])[i];
  }

  lemma LowerScience()
    ensures Lower("Science") == "science"
  {
    LowerCapitalised("Science", 's');
  }

  lemma LowerNature()
    ensures Lower("Nature") == "nature"
  {
    LowerCapitalised("Nature", 'n');
  }

  lemma ScienceAndNatureLowered()
    ensures Lower("Science") + "-and-" + Lower("Nature") == "science-and-nature"
  {
    LowerScience();
    LowerNature();
  }

  /** The category name "Science & Nature" gives "science-and-nature". */
  lemma ScienceAndNature()
    ensures Slugify(Some("Science & Nature")) == "science-and-nature"
  {
    ScienceAndNatureSplit();
    ScienceAndNatureAreWords();
    ScienceAndNatureLowered();
    AmpBetweenWords("Science", "Nature");
  }

  // ---------- Base path and links ----------

  /** `getBase`: the first path segment on GitHub Pages, "/" elsewhere. */
  function GetBase(page: Utils.Page): (base: string)
    ensures |base| >= 1 && base[0] == '/' && base[|base| - 1] == '/'
    ensures !EndsWith(page.hostname, "github.io") ==> base == "/"
  {
    var repo := if EndsWith(page.hostname, "github.io") then
                  (match FirstSegment(page.pathname) case Some(seg) => seg case None => "")
                else "";
    if repo != "" then "/" + repo + "/" else "/"
  }

  /** Away from local hosts and without `data-repo`, the categories page and
      `siteBase` agree on the base; on a local host they do not. */
  lemma GetBaseMatchesSiteBase(page: Utils.Page)
    requires !Utils.IsLocalHost(page.hostname) && !Utils.Truthy(page.dataRepo)
    ensures GetBase(page) == Utils.SiteBase(page)
  {
  }

  lemma GetBaseOnLocalHost(path: string, attr: Option<string>)
    ensures GetBase(Utils.Page("localhost", path, attr)) == "/"
    ensures Utils.SiteBase(Utils.Page("localhost", path, attr)) == "/src/"
  {
    assert !EndsWith("localhost", "github.io");
  }

  /** `buildQuizHref`. */
  function BuildQuizHref(base: string, id: nat, name: string): string
  {
    base + "pages/quiz.html?category=" + EncodeUriComponent(NatToString(id))
      + "&name=" + EncodeUriComponent(name)
  }

  /** `buildIdigbioHref`: the slug is not encoded, so it appears verbatim
      between the pages directory and the extension. */
  function BuildIdigbioHref(base: string, slug: string): (href: string)
    ensures StartsWith(href, base + "pages/") && EndsWith(href, ".html")
    ensures |href| == |base| + |slug| + 11 && href[|base| + 6..|href| - 5] == slug
  {
    var href := base + "pages/" + slug + ".html";
    assert href[..|base + "pages/"|] == base + "pages/";
    assert href[|href| - 5..] == ".html";
    assert href[|base| + 6..|href| - 5] == slug;
    href
  }

  /** Under one base, different slugs give different links. */
  lemma IdigbioHrefInjective(base: string, s1: string, s2: string)
    requires BuildIdigbioHref(base, s1) == BuildIdigbioHref(base, s2)
    ensures s1 == s2
  {
    var h := BuildIdigbioHref(base, s1);
    assert s1 == h[|base| + 6..|h| - 5];
  }

  /** `buildWikiHref`. */
  function BuildWikiHref(base: string, topic: string): string
  {
    base + "pages/wiki-explorer.html?topic=" + EncodeUriComponent(topic)
  }

  /** The quiz link of already-encoded values. */
  lemma {:induction false} QuizLinkParams(base: string, c: string, n: string)
    requires '?' !in base && '&' !in c && '&' !in n
    ensures PathOf(base + "pages/quiz.html?category=" + c + "&name=" + n) == base + "pages/quiz.html"
    ensures QueryParams(base + "pages/quiz.html?category=" + c + "&name=" + n) == [("category", c), ("name", n)]
  {
    assert '?' !in "pages/quiz.html";
    assert base + "pages/quiz.html?category=" + c + "&name=" + n
        == base + "pages/quiz.html" + "?" + "category" + "=" + c + "&" + "name" + "=" + n;
    TwoParamRoundTrip(base + "pages/quiz.html", "category", c, "name", n);
  }

  /** A quiz link reads back as the quiz page with exactly the parameters
      `category` and `name`, in that order, carrying the encoded id and name. */
  lemma QuizHrefRoundTrip(base: string, id: nat, name: string)
    requires '?' !in base
    ensures PathOf(BuildQuizHref(base, id, name)) == base + "pages/quiz.html"
    ensures QueryParams(BuildQuizHref(base, id, name))
         == [("category", EncodeUriComponent(NatToString(id))), ("name", EncodeUriComponent(name))]
  {
    EncodedIsPlain(NatToString(id));
    EncodedIsPlain(name);
    QuizLinkParams(base, EncodeUriComponent(NatToString(id)), EncodeUriComponent(name));
  }

  /** The wiki link of an already-encoded topic. */
  lemma {:induction false} WikiLinkParams(base: string, t: string)
    requires '?' !in base && '&' !in t
    ensures PathOf(base + "pages/wiki-explorer.html?topic=" + t) == base + "pages/wiki-explorer.html"
    ensures QueryParams(base + "pages/wiki-explorer.html?topic=" + t) == [("topic", t)]
  {
    assert '?' !in "pages/wiki-explorer.html";
    assert base + "pages/wiki-explorer.html?topic=" + t == base + "pages/wiki-explorer.html" + "?" + "topic" + "=" + t;
    OneParamRoundTrip(base + "pages/wiki-explorer.html", "topic", t);
  }

  /** A wiki link reads back as the explorer page with the one parameter `topic`. */
  lemma WikiHrefRoundTrip(base: string, topic: string)
    requires '?' !in base
    ensures PathOf(BuildWikiHref(base, topic)) == base + "pages/wiki-explorer.html"
    ensures QueryParams(BuildWikiHref(base, topic)) == [("topic", EncodeUriComponent(topic))]
  {
    EncodedIsPlain(topic);
    WikiLinkParams(base, EncodeUriComponent(topic));
  }

  // ---------- Subject search ----------

  datatype Subject = Subject(id: nat, name: string, desc: string)

  /** `SUBJECTS`. */
  const Subjects: seq<Subject> := [
    Subject(17, "Science", "10-question quiz"),
    Subject(19, "Math", "10-question quiz"),
    Subject(23, "History", "10-question quiz"),
    Subject(27, "Animals", "10-question quiz"),
    Subject(22, "Geography", "10-question quiz"),
    Subject(9, "General Knowledge", "10-question quiz")
  ]

  /** The search box's value, lower-cased and trimmed; missing counts as "". */
  function NormalizeQuery(q: Option<string>): string
  {
    if q.Some? then Trim(Lower(q.value)) else ""
  }

  predicate Matches(s: Subject, query: string)
  {
    Contains(Lower(s.name), query)
  }

  /** `SUBJECTS.filter(s => s.name.toLowerCase().includes(q))`. */
  function FilterSubjects(subjects: seq<Subject>, query: string): (r: seq<Subject>)
    ensures |r| <= |subjects|
    ensures forall s :: s in r <==> s in subjects && Matches(s, query)
  {
    if subjects == [] then []
    else (if Matches(subjects[0], query) then [subjects[0]] else []) + FilterSubjects(subjects[1..], query)
  }

  /** The search keeps the subjects' order: filtering a concatenation is
      concatenating the filtered parts. */
  lemma {:induction false} FilterKeepsOrder(a: seq<Subject>, b: seq<Subject>, query: string)
    ensures FilterSubjects(a + b, query) == FilterSubjects(a, query) + FilterSubjects(b, query)
  {
    if a != [] {
      var head := if Matches(a[0], query) then [a[0]] else [];
      assert (a + b)[0] == a[0] && (a + b)[1..] == a[1..] + b;
      assert FilterSubjects(a + b, query) == head + FilterSubjects(a[1..] + b, query);
      FilterKeepsOrder(a[1..], b, query);
      assert FilterSubjects(a, query) == head + FilterSubjects(a[1..], query);
    } else {
      assert a + b == b;
    }
  }

  /** An empty (or blank) query keeps every subject. */
  lemma {:induction false} EmptyQueryKeepsAll(subjects: seq<Subject>)
    ensures FilterSubjects(subjects, "") == subjects
  {
    if subjects != [] {
      ContainsEmpty(Lower(subjects[0].name));
      EmptyQueryKeepsAll(subjects[1..]);
    }
  }

  /** A search box left empty, missing or holding only white space keeps
      every subject, in order. */
  lemma BlankQueryKeepsAll(q: Option<string>)
    requires q.Some? ==> forall i :: 0 <= i < |q.value| ==> IsJsSpace(q.value[i])
    ensures FilterSubjects(Subjects, NormalizeQuery(q)) == Subjects
  {
    if q.Some? {
      var l := Lower(q.value);
      assert forall i :: 0 <= i < |l| ==> IsJsSpace(l[i]);
      assert Trim(l) == [];
    }
    EmptyQueryKeepsAll(Subjects);
  }
}
