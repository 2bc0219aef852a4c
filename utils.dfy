/** The shared utilities: the site base path, resolving a path against it,
    and prepending a result to the stored quiz history. */
module Utils {
  import opened Wrappers
  import opened Text

  /** What `siteBase` reads from the browser: `location.hostname`,
      `location.pathname`, and the `data-repo` attribute of the root element
      (`None` when absent). */
  datatype Page = Page(hostname: string, pathname: string, dataRepo: Option<string>)

  predicate IsLocalHost(host: string)
  {
    host == "127.0.0.1" || host == "localhost"
  }

  /** A JavaScript string is truthy exactly when it is present and non-empty. */
  predicate Truthy(s: Option<string>)
  {
    s.Some? && s.value != ""
  }

  /** `attr.replace(/^\/|\/$/g, "")`: at most one leading and at most one
      trailing slash are removed, and nothing else; a lone "/" serves as the
      leading one. */
  function StripEdgeSlashes(attr: string): (r: string)
    ensures |attr| - 2 <= |r| <= |attr|
    ensures Contains(attr, r)
    ensures !StartsWith(attr, "/") && !EndsWith(attr, "/") ==> r == attr
    ensures !StartsWith(attr, "/") && EndsWith(attr, "/") ==> attr == r + "/"
    ensures StartsWith(attr, "/") && (|attr| < 2 || !EndsWith(attr, "/")) ==> attr == "/" + r
    ensures StartsWith(attr, "/") && |attr| >= 2 && EndsWith(attr, "/") ==> attr == "/" + r + "/"
  {
    var a := if StartsWith(attr, "/") then attr[1..] else attr;
    var b := if EndsWith(a, "/") then a[..|a| - 1] else a;
    assert b == attr[|attr| - |a|..][..|b|] == attr[|attr| - |a|..|attr| - |a| + |b|];
    assert OccursAt(attr, b, |attr| - |a|);
    b
  }

  /** `siteBase`: local development serves from "/src/", then the
      `data-repo` attribute, then the first path segment on GitHub Pages,
      and "/" otherwise. */
  function SiteBase(page: Page): (base: string)
    ensures |base| >= 1 && base[0] == '/' && base[|base| - 1] == '/'
    ensures IsLocalHost(page.hostname) ==> base == "/src/"
  {
    if IsLocalHost(page.hostname) then "/src/"
    else if Truthy(page.dataRepo) then "/" + StripEdgeSlashes(page.dataRepo.value) + "/"
    else if EndsWith(page.hostname, "github.io") then
      match FirstSegment(page.pathname)
      case Some(seg) => "/" + seg + "/"
      case None => "/"
    else "/"
  }

  /** On a local host, neither the attribute nor the path matters. */
  lemma LocalHostWins(page: Page, repo: Option<string>, path: string)
    requires IsLocalHost(page.hostname)
    ensures SiteBase(page) == SiteBase(Page(page.hostname, path, repo)) == "/src/"
  {
  }

  /** A non-empty `data-repo` decides the base on every other host, whatever
      the path. */
  lemma RepoBase(host: string, path: string, attr: string)
    requires !IsLocalHost(host) && attr != []
    ensures SiteBase(Page(host, path, Some(attr))) == "/" + StripEdgeSlashes(attr) + "/"
  {
  }

  /** A name without edge slashes comes back as "/name/", and one leading or
      one trailing slash on it, or both, are ignored. */
  lemma {:induction false} DataRepoBase(host: string, path: string, name: string)
    requires !IsLocalHost(host) && name != []
    requires name[0] != '/' && name[|name| - 1] != '/'
    ensures SiteBase(Page(host, path, Some(name))) == "/" + name + "/"
    ensures SiteBase(Page(host, path, Some("/" + name + "/"))) == "/" + name + "/"
    ensures SiteBase(Page(host, path, Some("/" + name))) == "/" + name + "/"
    ensures SiteBase(Page(host, path, Some(name + "/"))) == "/" + name + "/"
  {
    assert !StartsWith(name, "/") && !EndsWith(name, "/");
    RepoBase(host, path, name);
    var both := "/" + name + "/";
    assert StartsWith(both, "/") && EndsWith(both, "/");
    StripBoth(name);
    RepoBase(host, path, both);
    var lead := "/" + name;
    assert StartsWith(lead, "/") && !EndsWith(lead, "/") by { assert lead[|lead| - 1] == name[|name| - 1]; }
    StripLead(name);
    RepoBase(host, path, lead);
    var trail := name + "/";
    assert !StartsWith(trail, "/") && EndsWith(trail, "/") by { assert trail[0] == name[0]; }
    StripTrail(name);
    RepoBase(host, path, trail);
  }

  lemma StripBoth(name: string)
    requires StartsWith("/" + name + "/", "/") && EndsWith("/" + name + "/", "/")
    ensures StripEdgeSlashes("/" + name + "/") == name
  {
    var r := StripEdgeSlashes("/" + name + "/");
    assert ("/" + r + "/")[1..|name| + 1] == r;
    assert ("/" + name + "/")[1..|name| + 1] == name;
  }

  lemma StripLead(name: string)
    requires StartsWith("/" + name, "/") && !EndsWith("/" + name, "/")
    ensures StripEdgeSlashes("/" + name) == name
  {
    var r := StripEdgeSlashes("/" + name);
    assert ("/" + r)[1..] == r;
    assert ("/" + name)[1..] == name;
  }

  lemma StripTrail(name: string)
    requires !StartsWith(name + "/", "/") && EndsWith(name + "/", "/")
    ensures StripEdgeSlashes(name + "/") == name
  {
    var r := StripEdgeSlashes(name + "/");
    assert (r + "/")[..|r|] == r;
    assert (name + "/")[..|name|] == name;
  }

  /** On GitHub Pages without `data-repo`, the first path segment names the base. */
  lemma GitHubPagesBase(host: string, repo: string, rest: string, attr: Option<string>)
    requires !IsLocalHost(host) && EndsWith(host, "github.io") && !Truthy(attr)
    requires repo != [] && '/' !in repo
    ensures SiteBase(Page(host, "/" + repo + "/" + rest, attr)) == "/" + repo + "/"
    ensures SiteBase(Page(host, "/", attr)) == "/"
  {
    FirstSegmentOfSingle(repo, rest);
    assert Segments("/") == Segments("");
  }

  /** Any other host without `data-repo` is served from the root. */
  lemma DefaultBase(host: string, path: string, attr: Option<string>)
    requires !IsLocalHost(host) && !EndsWith(host, "github.io") && !Truthy(attr)
    ensures SiteBase(Page(host, path, attr)) == "/"
  {
  }

  /** `/^https?:\/\//i`: an absolute http or https URL, scheme in any case. */
  predicate IsHttpUrl(p: string)
  {
    StartsWith(Lower(p), "http://") || StartsWith(Lower(p), "https://")
  }

  /** `resolveAbs` once the base is known: absolute http(s) URLs are kept;
      anything else (a missing path counting as "") is appended to the base
      without its leading slash. */
  function ResolveAgainst(base: string, path: Option<string>): string
  {
    var p := if path.Some? then path.value else "";
    if IsHttpUrl(p) then p
    else
      var normalized := if StartsWith(p, "/") then p[1..] else p;
      base + normalized
  }

  /** `resolveAbs`: the path resolved against `siteBase()`. */
  function ResolveAbs(page: Page, path: Option<string>): (r: string)
    ensures var p := if path.Some? then path.value else "";
            && (IsHttpUrl(p) ==> r == p)
            && (!IsHttpUrl(p) ==> StartsWith(r, SiteBase(page)) && |r| >= |SiteBase(page)| + |p| - 1)
  {
    ResolveAgainst(SiteBase(page), path)
  }

  /** A missing or empty path resolves to the base itself. */
  lemma ResolveMissing(page: Page)
    ensures ResolveAbs(page, None) == ResolveAbs(page, Some("")) == SiteBase(page)
  {
    assert !IsHttpUrl("");
  }

  /** One leading slash on a relative path makes no difference. */
  lemma {:induction false} LeadingSlashIgnored(page: Page, p: string)
    requires !IsHttpUrl(p) && !StartsWith(p, "/")
    ensures ResolveAbs(page, Some("/" + p)) == ResolveAbs(page, Some(p)) == SiteBase(page) + p
  {
    var q := "/" + p;
    assert Lower(q) == "/" + Lower(p);
    assert Lower(q)[0] == '/';
    assert !IsHttpUrl(q);
    assert StartsWith(q, "/") && q[1..] == p;
  }

  // ---------- Quiz history in local storage ----------

  /** The value stored under "quizHistory", as `JSON.parse` sees it. */
  datatype StoredHistory<T> =
    | Absent              // missing, or a falsy JSON value
    | Entries(items: seq<T>)
    | Malformed           // unparsable, or truthy but not an array: reading or `unshift` throws

  /** `getLocalStorage("quizHistory") || []` then `unshift(result)`. */
  function AfterAdd<T>(stored: StoredHistory<T>, result: T): (r: Result<StoredHistory<T>>)
  {
    match stored
    case Absent => Ok(Entries([result]))
    case Entries(items) => Ok(Entries([result] + items))
    case Malformed => Err("quizHistory is not an array")
  }

  /** After a successful add the new result is first, the list is one longer
      and the earlier entries follow unchanged and in order. */
  lemma AddPrepends<T>(stored: StoredHistory<T>, result: T)
    requires !stored.Malformed?
    ensures AfterAdd(stored, result).Ok?
    ensures var items := AfterAdd(stored, result).value.items;
            var before := if stored.Entries? then stored.items else [];
            && items[0] == result && |items| == |before| + 1 && items[1..] == before
  {
  }

  /** Local storage, reduced to the "quizHistory" slot. */
  class HistoryStore<T> {
    var stored: StoredHistory<T>

    constructor (initial: StoredHistory<T>)
      ensures stored == initial
    {
      stored := initial;
    }

    /** `addQuizResult`: `ok` is false when it throws, and then storage is untouched. */
    method AddQuizResult(result: T) returns (ok: bool)
      modifies this
      ensures ok <==> !old(stored).Malformed?
      ensures ok ==> Ok(stored) == AfterAdd(old(stored), result)
      ensures !ok ==> stored == old(stored)
    {
      if stored.Malformed? {
        return false;
      }
      var history := if stored.Entries? then stored.items else [];
      history := [result] + history;
      assert old(stored).Absent? ==> history == [result];
      stored := Entries(history);
      ok := true;
    }
  }
}
