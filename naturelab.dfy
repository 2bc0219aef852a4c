/** The "Guess the Animal" game: choosing the facts endpoint, normalising the
    animal dataset, picking the facts record out of the proxy's reply,
    formatting the facts, drawing a two-option round and resolving it by an
    answer or by the countdown running out.
    The network is replaced by its replies, `Math.random` by supplied draws
    and the page by the abstract state of `Lab`. */
module NatureLab {
  import opened Wrappers
  import opened Text
  import Utils
  import GameTools
  import Seqs

  const SecondsPerRound := 20

  // ---------- The facts endpoint ----------

  /** A host the site treats as served by Cloudflare (or any other web
      server reached over http or https). */
  predicate CloudHosted(host: string, protocol: string)
  {
    EndsWith(host, ".pages.dev") || EndsWith(host, ".workers.dev")
    || (!Utils.IsLocalHost(host) && StartsWith(protocol, "http"))
  }

  /** `FACTS_ENDPOINT`: the trimmed `content` of the `facts-endpoint` meta
      element (`None` when there is no such element or attribute), else the
      relative proxy path on hosted sites, else no endpoint at all. */
  function FactsEndpoint(meta: Option<string>, host: string, protocol: string): (r: Option<string>)
    ensures r.Some? ==> r.value != "" && r.value != "none"
    ensures meta.Some? && Trim(meta.value) == "none" ==> r.None?
    ensures meta.Some? && Trim(meta.value) != "" && Trim(meta.value) != "none" ==> r == Some(Trim(meta.value))
    ensures (meta.None? || Trim(meta.value) == "") ==>
              (r.Some? <==> CloudHosted(host, protocol)) && (r.Some? ==> r.value == "/api/animals")
  {
    var trimmed := if meta.Some? then Some(Trim(meta.value)) else None;
    if trimmed == Some("none") then None
    else if trimmed.Some? && trimmed.value != "" then trimmed
    else if CloudHosted(host, protocol) then Some("/api/animals")
    else None
  }

  /** Local development without the meta element has facts switched off. */
  lemma LocalDevHasNoFacts(host: string, protocol: string)
    requires Utils.IsLocalHost(host)
    ensures FactsEndpoint(None, host, protocol) == None
  {
    assert !EndsWith(host, ".pages.dev") && !EndsWith(host, ".workers.dev");
  }

  /** The meta element wins over the host, in both directions: any other
      non-blank value is used as it is (trimmed), and "none" disables facts
      even on a hosted site. */
  lemma MetaOverridesHost(value: string, host: string, protocol: string)
    requires Trim(value) != ""
    ensures Trim(value) == "none" ==> FactsEndpoint(Some(value), host, protocol) == None
    ensures Trim(value) != "none" ==> FactsEndpoint(Some(value), host, protocol) == Some(Trim(value))
  {
  }

  // ---------- The animal dataset ----------

  /** One dataset entry as parsed from JSON: `None` for a falsy or non-object
      entry, and `None` fields for absent ones. */
  datatype RawAnimal = RawAnimal(title: Option<string>, api: Option<string>, img: Option<string>)

  /** A pool entry: `api` is the name sent to the facts proxy, `img` an
      absolute image path. */
  datatype Animal = Animal(title: string, api: string, img: string)

  function ValueOf(o: Option<string>): string
  {
    if o.Some? then o.value else ""
  }

  /** `x && x.title && x.img`. */
  predicate Kept(x: Option<RawAnimal>)
  {
    x.Some? && Usable(x.value)
  }

  predicate Usable(r: RawAnimal)
  {
    Utils.Truthy(r.title) && Utils.Truthy(r.img)
  }

  /** The `filter` step: the kept entries, in order. */
  function KeepAll(xs: seq<Option<RawAnimal>>): (r: seq<RawAnimal>)
    ensures |r| <= |xs|
    ensures forall i :: 0 <= i < |r| ==> Usable(r[i])
  {
    if xs == [] then []
    else (if Kept(xs[0]) then [xs[0].value] else []) + KeepAll(xs[1..])
  }

  /** The `map` step for one entry: `api` falls back to `title`, `img` goes
      through `resolveAbs` (here against the already computed base). Only
      kept entries reach it, so their `title` and `img` are present. */
  function Normalize(r: RawAnimal, base: string): Animal
  {
    var title := ValueOf(r.title);
    Animal(title, if Utils.Truthy(r.api) then r.api.value else title, Utils.ResolveAgainst(base, r.img))
  }

  /** A kept entry keeps its title, and its proxy name is its `api` or else
      its title; neither is empty. */
  lemma NormalizeFields(r: RawAnimal, base: string)
    requires Usable(r)
    ensures Normalize(r, base).title == r.title.value != ""
    ensures Normalize(r, base).api == (if Utils.Truthy(r.api) then r.api.value else r.title.value)
    ensures Normalize(r, base).api != ""
  {
  }

  /** With the page's base, each pool image is `resolveAbs` of the entry's `img`. */
  lemma ImageResolved(r: RawAnimal, page: Utils.Page)
    ensures Normalize(r, Utils.SiteBase(page)).img == Utils.ResolveAbs(page, r.img)
  {
  }

  /** `data.filter(…).map(…)`. */
  function NormalizeAll(xs: seq<Option<RawAnimal>>, base: string): (r: seq<Animal>)
    ensures |r| <= |xs|
  {
    Seqs.Map((r: RawAnimal) => Normalize(r, base), KeepAll(xs))
  }

  /** The kept entries are exactly the usable ones of the dataset. */
  lemma {:induction false} KeepAllMembers(xs: seq<Option<RawAnimal>>)
    ensures forall r :: r in KeepAll(xs) <==> Some(r) in xs && Usable(r)
  {
    if xs != [] {
      KeepAllMembers(xs[1..]);
      assert forall x :: x in xs <==> x == xs[0] || x in xs[1..];
    }
  }

  /** Filtering keeps the dataset's order: the kept entries of a
      concatenation are the kept entries of its parts, concatenated. */
  lemma {:induction false} KeepAllAppend(xs: seq<Option<RawAnimal>>, ys: seq<Option<RawAnimal>>)
    ensures KeepAll(xs + ys) == KeepAll(xs) + KeepAll(ys)
  {
    if xs == [] {
      assert xs + ys == ys;
    } else {
      var head := if Kept(xs[0]) then [xs[0].value] else [];
      assert (xs + ys)[0] == xs[0] && (xs + ys)[1..] == xs[1..] + ys;
      assert KeepAll(xs + ys) == head + KeepAll(xs[1..] + ys);
      KeepAllAppend(xs[1..], ys);
    }
  }

  /** Every usable entry is in the pool, normalised, and every pool entry
      is a usable entry normalised. */
  lemma NormalizeMembers(xs: seq<Option<RawAnimal>>, base: string)
    ensures forall r :: Some(r) in xs && Usable(r) ==> Normalize(r, base) in NormalizeAll(xs, base)
    ensures forall a :: a in NormalizeAll(xs, base) ==> exists r :: Some(r) in xs && Usable(r) && a == Normalize(r, base)
  {
    KeepAllMembers(xs);
    var kept := KeepAll(xs);
    forall r | Some(r) in xs && Usable(r) ensures Normalize(r, base) in NormalizeAll(xs, base) {
      var i :| 0 <= i < |kept| && kept[i] == r;
    }
    forall a | a in NormalizeAll(xs, base) ensures exists r :: Some(r) in xs && Usable(r) && a == Normalize(r, base) {
      var i :| 0 <= i < |kept| && NormalizeAll(xs, base)[i] == a;
      assert kept[i] in kept;
    }
  }

  /** The pool keeps the dataset's order: normalising a concatenation
      concatenates the normalised parts. */
  lemma NormalizeAppend(xs: seq<Option<RawAnimal>>, ys: seq<Option<RawAnimal>>, base: string)
    ensures NormalizeAll(xs + ys, base) == NormalizeAll(xs, base) + NormalizeAll(ys, base)
  {
    KeepAllAppend(xs, ys);
    Seqs.MapAppend((r: RawAnimal) => Normalize(r, base), KeepAll(xs), KeepAll(ys));
  }

  /** One entry on its own: kept and normalised, or dropped. */
  lemma NormalizeSingle(x: Option<RawAnimal>, base: string)
    ensures NormalizeAll([x], base) == if Kept(x) then [Normalize(x.value, base)] else []
  {
    assert [x][1..] == [];
  }

  /** `loadAnimalsPool` after the candidate paths were tried: `None` when no
      path gave a JSON array. */
  function LoadPool(data: Option<seq<Option<RawAnimal>>>, page: Utils.Page): (r: Result<seq<Animal>>)
    ensures r.Err? <==> data.None?
    ensures r.Ok? ==> r.value == NormalizeAll(data.value, Utils.SiteBase(page))
  {
    if data.None? then Err("Animals JSON not found in expected paths")
    else Ok(NormalizeAll(data.value, Utils.SiteBase(page)))
  }

  // ---------- Facts from the proxy ----------

  /** The record the facts proxy returns for one animal, with the
      `characteristics` and `taxonomy` fields flattened (`None` when absent),
      and `locations` `None` when it is not an array. */
  datatype Facts = Facts(
    slogan: Option<string>, habitat: Option<string>, diet: Option<string>,
    locations: Option<seq<string>>, topSpeed: Option<string>, lifespan: Option<string>,
    scientificName: Option<string>)

  /** The proxy's reply: a non-2xx status, a body (`None` when it is not
      a JSON array), or a failure that makes the awaited fetch reject (the
      network request itself failing, or a body that is not JSON). */
  datatype ProxyReply = Status(code: nat) | Body(data: Option<seq<Facts>>) | Failed

  /** The request URL of `fetchFactsViaProxy`. */
  function FactsUrl(endpoint: string, name: string): string
  {
    endpoint + "?name=" + EncodeUriComponent(name)
  }

  lemma {:induction false} FactsLinkParams(endpoint: string, n: string)
    requires '?' !in endpoint && '&' !in n
    ensures PathOf(endpoint + "?name=" + n) == endpoint
    ensures QueryParams(endpoint + "?name=" + n) == [("name", n)]
  {
    assert endpoint + "?name=" + n == endpoint + "?" + "name" + "=" + n;
    OneParamRoundTrip(endpoint, "name", n);
  }

  /** The request goes to the endpoint with the one parameter `name`. */
  lemma FactsUrlRoundTrip(endpoint: string, name: string)
    requires '?' !in endpoint
    ensures PathOf(FactsUrl(endpoint, name)) == endpoint
    ensures QueryParams(FactsUrl(endpoint, name)) == [("name", EncodeUriComponent(name))]
  {
    EncodedIsPlain(name);
    FactsLinkParams(endpoint, EncodeUriComponent(name));
  }

  /** What `fetchFactsViaProxy` settles to: no record without an endpoint, an
      error for a failed status, otherwise the first element of a non-empty
      array and no record for anything else. */
  function SelectFacts(endpoint: Option<string>, reply: ProxyReply): (r: Result<Option<Facts>>)
    ensures !Utils.Truthy(endpoint) ==> r == Ok(None)
    ensures r.Err? <==> Utils.Truthy(endpoint) && (reply.Status? || reply.Failed?)
    ensures r.Ok? && r.value.Some? <==>
              Utils.Truthy(endpoint) && reply.Body? && reply.data.Some? && reply.data.value != []
    ensures r.Ok? && r.value.Some? ==> r.value.value == reply.data.value[0]
  {
    if !Utils.Truthy(endpoint) then Ok(None)
    else match reply
      case Status(code) => Err("Proxy HTTP " + NatToString(code))
      case Failed => Err("fetch rejected")
      case Body(data) => if data.Some? && data.value != [] then Ok(Some(data.value[0])) else Ok(None)
  }

  // ---------- formatFacts ----------

  /** The seven kinds of fact line, in the order `formatFacts` emits them. */
  datatype Kind = Slogan | Habitat | Diet | Where | TopSpeed | Lifespan | ScientificName

  const KindOrder: seq<Kind> := [Slogan, Habitat, Diet, Where, TopSpeed, Lifespan, ScientificName]

  function Rank(k: Kind): nat
  {
    match k
    case Slogan => 0 case Habitat => 1 case Diet => 2 case Where => 3
    case TopSpeed => 4 case Lifespan => 5 case ScientificName => 6
  }

  /** The field behind a kind of line is truthy (for `locations`: a non-empty array). */
  predicate Present(a: Facts, k: Kind)
  {
    match k
    case Slogan => Utils.Truthy(a.slogan)
    case Habitat => Utils.Truthy(a.habitat)
    case Diet => Utils.Truthy(a.diet)
    case Where => a.locations.Some? && a.locations.value != []
    case TopSpeed => Utils.Truthy(a.topSpeed)
    case Lifespan => Utils.Truthy(a.lifespan)
    case ScientificName => Utils.Truthy(a.scientificName)
  }

  function Label(k: Kind): (s: string)
    ensures s != []
  {
    match k
    case Slogan => "Fun fact: "
    case Habitat => "Habitat: "
    case Diet => "Diet: "
    case Where => "Where: "
    case TopSpeed => "Top speed: "
    case Lifespan => "Lifespan: "
    case ScientificName => "Scientific name: "
  }

  /** The line for one kind, e.g. "Diet: Carnivore.". */
  function LineOf(a: Facts, k: Kind): (line: string)
    ensures StartsWith(line, Label(k)) && |line| > |Label(k)|
  {
    var v := match k
      case Slogan => ValueOf(a.slogan)
      case Habitat => ValueOf(a.habitat)
      case Diet => ValueOf(a.diet)
      case Where => Join(if a.locations.Some? then a.locations.value else [], ", ")
      case TopSpeed => ValueOf(a.topSpeed)
      case Lifespan => ValueOf(a.lifespan)
      case ScientificName => ValueOf(a.scientificName);
    Label(k) + v + "."
  }

  /** Different kinds never give the same line: their labels start differently. */
  lemma LinesDiffer(a: Facts, k1: Kind, k2: Kind)
    requires LineOf(a, k1) == LineOf(a, k2)
    ensures k1 == k2
  {
    assert Label(k1)[0] == Label(k2)[0];
  }

  /** The kinds of `ks` whose field is present, in the order of `ks`. */
  function PresentKinds(a: Facts, ks: seq<Kind>): (r: seq<Kind>)
    ensures |r| <= |ks|
  {
    if ks == [] then []
    else (if Present(a, ks[0]) then [ks[0]] else []) + PresentKinds(a, ks[1..])
  }

  lemma {:induction false} PresentKindsMembers(a: Facts, ks: seq<Kind>)
    ensures forall k :: k in PresentKinds(a, ks) <==> k in ks && Present(a, k)
  {
    if ks != [] {
      PresentKindsMembers(a, ks[1..]);
      assert forall k :: k in ks <==> k == ks[0] || k in ks[1..];
    }
  }

  predicate RankIncreasing(ks: seq<Kind>)
  {
    forall i, j :: 0 <= i < j < |ks| ==> Rank(ks[i]) < Rank(ks[j])
  }

  lemma {:induction false} PresentKindsIncreasing(a: Facts, ks: seq<Kind>)
    requires RankIncreasing(ks)
    ensures RankIncreasing(PresentKinds(a, ks))
  {
    if ks != [] {
      assert RankIncreasing(ks[1..]);
      PresentKindsIncreasing(a, ks[1..]);
      PresentKindsMembers(a, ks[1..]);
      var rest := PresentKinds(a, ks[1..]);
      forall k | k in rest ensures Rank(ks[0]) < Rank(k) {
        var j :| 1 <= j < |ks| && ks[j] == k;
      }
    }
  }

  function Lines(a: Facts, ks: seq<Kind>): (r: seq<string>)
    ensures |r| == |ks|
    ensures forall i :: 0 <= i < |ks| ==> r[i] == LineOf(a, ks[i])
  {
    if ks == [] then [] else [LineOf(a, ks[0])] + Lines(a, ks[1..])
  }

  /** The lines `formatFacts` collects: one per present field, in `KindOrder`. */
  function FactLines(a: Facts): seq<string>
  {
    Lines(a, PresentKinds(a, KindOrder))
  }

  /** A kind's line is among the lines of `ks` exactly when the kind is in
      `ks` and its field is present. */
  lemma LineIffPresentIn(a: Facts, ks: seq<Kind>, k: Kind)
    ensures LineOf(a, k) in Lines(a, PresentKinds(a, ks)) <==> k in ks && Present(a, k)
  {
    var pk := PresentKinds(a, ks);
    PresentKindsMembers(a, ks);
    var lines := Lines(a, pk);
    if LineOf(a, k) in lines {
      var i :| 0 <= i < |pk| && lines[i] == LineOf(a, k);
      LinesDiffer(a, pk[i], k);
    }
    if k in ks && Present(a, k) {
      var i :| 0 <= i < |pk| && pk[i] == k;
      assert lines[i] == LineOf(a, k);
    }
  }

  /** A kind's line is among the facts exactly when its field is present. */
  lemma FactLineIffPresent(a: Facts, k: Kind)
    ensures LineOf(a, k) in FactLines(a) <==> Present(a, k)
  {
    LineIffPresentIn(a, KindOrder, k);
    assert KindOrder[Rank(k)] == k;
  }

  /** There are no facts exactly when no field is present. */
  lemma NoFactLinesIffNothingPresent(a: Facts)
    ensures FactLines(a) == [] <==> forall k :: !Present(a, k)
  {
    var pk := PresentKinds(a, KindOrder);
    PresentKindsMembers(a, KindOrder);
    if FactLines(a) != [] {
      assert Present(a, pk[0]);
    } else {
      forall k | k in KindOrder ensures !Present(a, k) {
        assert k !in pk;
      }
      forall k ensures !Present(a, k) {
        assert KindOrder[Rank(k)] == k;
      }
    }
  }

  function Opt(a: Facts, k: Kind): seq<string>
  {
    if Present(a, k) then [LineOf(a, k)] else []
  }

  lemma {:induction false} PresentKindsAppend(a: Facts, xs: seq<Kind>, ys: seq<Kind>)
    ensures PresentKinds(a, xs + ys) == PresentKinds(a, xs) + PresentKinds(a, ys)
  {
    if xs == [] {
      assert xs + ys == ys;
    } else {
      var head := if Present(a, xs[0]) then [xs[0]] else [];
      assert (xs + ys)[0] == xs[0] && (xs + ys)[1..] == xs[1..] + ys;
      assert PresentKinds(a, xs + ys) == head + PresentKinds(a, xs[1..] + ys);
      PresentKindsAppend(a, xs[1..], ys);
    }
  }

  lemma {:induction false} LinesAppend(a: Facts, xs: seq<Kind>, ys: seq<Kind>)
    ensures Lines(a, xs + ys) == Lines(a, xs) + Lines(a, ys)
  {
    var l := Lines(a, xs + ys);
    assert forall i :: 0 <= i < |l| ==> l[i] == (Lines(a, xs) + Lines(a, ys))[i];
  }

  /** Adding a kind at the end adds its line, if present, at the end. */
  lemma LinesSnoc(a: Facts, ks: seq<Kind>, k: Kind)
    ensures Lines(a, PresentKinds(a, ks + [k])) == Lines(a, PresentKinds(a, ks)) + Opt(a, k)
  {
    PresentKindsAppend(a, ks, [k]);
    assert PresentKinds(a, [k]) == (if Present(a, k) then [k] else []);
    LinesAppend(a, PresentKinds(a, ks), PresentKinds(a, [k]));
  }

  function ListItems(lines: seq<string>): string
  {
    if lines == [] then "" else "<li>" + lines[0] + "</li>" + ListItems(lines[1..])
  }

  /** The fact card around the lines, or "" when there are none. */
  function Card(lines: seq<string>): (html: string)
    ensures html == "" <==> lines == []
  {
    if lines == [] then ""
    else "<div class=\"fact-card\"><h3>About this animal</h3><ul class=\"fact-list\">"
         + ListItems(lines) + "</ul></div>"
  }

  /** One `if (field) lines.push(line)` step of `formatFacts`. */
  method PushIfPresent(a: Facts, lines: seq<string>, ghost done: seq<Kind>, k: Kind) returns (r: seq<string>)
    requires lines == Lines(a, PresentKinds(a, done))
    ensures r == Lines(a, PresentKinds(a, done + [k]))
  {
    LinesSnoc(a, done, k);
    r := if Present(a, k) then lines + [LineOf(a, k)] else lines;
  }

  lemma AllKindsPushed(a: Facts, done: seq<Kind>, lines: seq<string>)
    requires done == [] + [Slogan] + [Habitat] + [Diet] + [Where] + [TopSpeed] + [Lifespan] + [ScientificName]
    requires lines == Lines(a, PresentKinds(a, done))
    ensures lines == FactLines(a)
  {
    assert done == KindOrder;
  }

  /** `formatFacts`: "" for a missing record, otherwise the card of the lines
      pushed one after the other. */
  method FormatFacts(animal: Option<Facts>) returns (html: string)
    ensures animal.None? ==> html == ""
    ensures animal.Some? ==> html == Card(FactLines(animal.value))
  {
    if animal.None? {
      return "";
    }
    var a := animal.value;
    var lines: seq<string> := [];
    ghost var done: seq<Kind> := [];
    lines := PushIfPresent(a, lines, done, Slogan);
    done := done + [Slogan];
    lines := PushIfPresent(a, lines, done, Habitat);
    done := done + [Habitat];
    lines := PushIfPresent(a, lines, done, Diet);
    done := done + [Diet];
    lines := PushIfPresent(a, lines, done, Where);
    done := done + [Where];
    lines := PushIfPresent(a, lines, done, TopSpeed);
    done := done + [TopSpeed];
    lines := PushIfPresent(a, lines, done, Lifespan);
    done := done + [Lifespan];
    lines := PushIfPresent(a, lines, done, ScientificName);
    done := done + [ScientificName];
    AllKindsPushed(a, done, lines);
    html := Card(lines);
  }

  const DisabledText := "Facts are disabled in local dev. Add <meta name='facts-endpoint' ...> or run Cloudflare dev."
  const NoFactsText := "No extra facts available for this animal."
  const FactsErrorText := "We couldn't fetch facts right now."

  /** What the facts box finally shows. */
  function FactsBox(endpoint: Option<string>, selected: Result<Option<Facts>>): (text: string)
    ensures text != ""
    ensures !Utils.Truthy(endpoint) ==> text == DisabledText
    ensures Utils.Truthy(endpoint) && selected.Err? ==> text == FactsErrorText
    ensures Utils.Truthy(endpoint) && selected == Ok(None) ==> text == NoFactsText
    ensures Utils.Truthy(endpoint) && selected.Ok? && selected.value.Some? ==>
              text == (if FactLines(selected.value.value) == [] then NoFactsText
                       else Card(FactLines(selected.value.value)))
  {
    if !Utils.Truthy(endpoint) then DisabledText
    else if selected.Err? then FactsErrorText
    else if selected.value.None? || FactLines(selected.value.value) == [] then NoFactsText
    else Card(FactLines(selected.value.value))
  }

  // ---------- Rounds ----------

  datatype Choice = Choice(title: string, correct: bool)

  /** A drawn round: the specimen shown, the distractor and the two buttons. */
  datatype Round = Round(specimen: Animal, distractor: Animal, options: seq<Choice>)

  /** Two options, exactly one of them correct, and the correct one carries
      the specimen's title. */
  predicate OneCorrect(options: seq<Choice>, title: string)
  {
    && |options| == 2
    && (options[0].correct <==> !options[1].correct)
    && forall i :: 0 <= i < 2 && options[i].correct ==> options[i].title == title
  }

  lemma {:induction false} PairPermutation<T>(s: seq<T>, x: T, y: T)
    requires |s| == 2 && multiset(s) == multiset([x, y]) && x != y
    ensures s == [x, y] || s == [y, x]
  {
    assert s == [s[0], s[1]];
    assert s[0] in multiset(s) && s[1] in multiset(s);
  }

  /** `newRound` before rendering: no round for a pool of fewer than two
      animals, otherwise a specimen and a distractor from two distinct pool
      positions and the two buttons in shuffled order. */
  method DrawRound(pool: seq<Animal>, draws: seq<nat>, order: seq<nat>) returns (r: Option<Round>)
    requires |draws| >= |pool| && |order| >= 2
    ensures r.None? <==> |pool| < 2
    ensures r.Some? ==>
              && multiset([r.value.specimen, r.value.distractor]) <= multiset(pool)
              && OneCorrect(r.value.options, r.value.specimen.title)
              && Choice(r.value.distractor.title, false) in r.value.options
  {
    if |pool| < 2 {
      return None;
    }
    var two := GameTools.SampleDistinct(Some(pool), 2, draws);
    var specimen, distractor := two[0], two[1];
    assert two == [specimen, distractor];
    var right, wrong := Choice(specimen.title, true), Choice(distractor.title, false);
    var options := GameTools.Shuffle(Some([right, wrong]), order);
    PairPermutation(options, right, wrong);
    r := Some(Round(specimen, distractor, options));
  }

  /** The follow-up button's caption. */
  function AgainCaption(correct: bool): (caption: string)
    ensures caption == "Play again" <==> correct
  {
    if correct then "Play again" else "Try another"
  }

  datatype Screen = Waiting | LoadFailed | NotEnough | Asking | Resolved
  datatype Outcome = Correct | Incorrect | TimeUp

  /** The module state of the game (`POOL`, `countdown`) and what the page
      shows. */
  class Lab {
    /** `FACTS_ENDPOINT`, fixed when the module loads. */
    const endpoint: Option<string>
    var pool: seq<Animal>
    var screen: Screen
    var round: Round
    var optionsEnabled: bool
    /** The `countdown` variable: `None` for null. */
    var countdown: Option<GameTools.Clock>
    /** The text of the timer element. */
    var timerText: int
    var outcome: Option<Outcome>
    /** The caption of the follow-up button, once it is shown. */
    var again: Option<string>
    var factsBox: Option<string>

    ghost predicate Valid()
      reads this
    {
      && (screen != Asking ==> !optionsEnabled && (countdown.None? || !countdown.value.running))
      && (screen == Asking ==>
            && optionsEnabled && countdown.Some? && countdown.value.running && countdown.value.remain > 0
            && OneCorrect(round.options, round.specimen.title)
            && outcome.None? && again.None?)
      && (screen == Resolved ==>
            && OneCorrect(round.options, round.specimen.title)
            && outcome.Some? && again == Some(AgainCaption(outcome.value == Correct))
            && factsBox.Some?)
    }

    /** The module loading: the endpoint is chosen, nothing is shown yet. */
    constructor (meta: Option<string>, host: string, protocol: string)
      ensures Valid() && screen == Waiting && pool == [] && countdown.None?
      ensures endpoint == FactsEndpoint(meta, host, protocol)
    {
      endpoint := FactsEndpoint(meta, host, protocol);
      pool := [];
      screen := Waiting;
      round := Round(Animal("", "", ""), Animal("", "", ""), []);
      optionsEnabled := false;
      countdown := None;
      timerText := SecondsPerRound;
      outcome, again, factsBox := None, None, None;
    }

    /** `initNatureLab`: without the game area nothing happens; a dataset that
        is not an array shows the load error; otherwise a round starts. */
    method Init(hasArea: bool, data: Option<seq<Option<RawAnimal>>>, page: Utils.Page,
                draws: seq<nat>, order: seq<nat>)
      requires Valid() && screen == Waiting
      requires data.Some? ==> |draws| >= |NormalizeAll(data.value, Utils.SiteBase(page))|
      requires |order| >= 2
      modifies this
      ensures Valid()
      ensures !hasArea ==> screen == Waiting && pool == old(pool)
      ensures hasArea && data.None? ==> screen == LoadFailed
      ensures hasArea && data.Some? ==>
                && pool == NormalizeAll(data.value, Utils.SiteBase(page))
                && (screen == NotEnough <==> |pool| < 2)
                && (screen == Asking <==> |pool| >= 2)
    {
      if !hasArea {
        return;
      }
      var loaded := LoadPool(data, page);
      if loaded.Err? {
        screen := LoadFailed;
        return;
      }
      pool := loaded.value;
      NewRound(draws, order);
    }

    /** `newRound` with `renderRound`: a fresh countdown of `SecondsPerRound`
        is started and reports its value at once. */
    method NewRound(draws: seq<nat>, order: seq<nat>)
      requires Valid() && screen != Asking
      requires |draws| >= |pool| && |order| >= 2
      modifies this
      ensures Valid() && pool == old(pool)
      ensures screen == NotEnough <==> |pool| < 2
      ensures screen == Asking <==> |pool| >= 2
      ensures screen == NotEnough ==> countdown == old(countdown)
      ensures screen == Asking ==>
                && multiset([round.specimen, round.distractor]) <= multiset(pool)
                && countdown == Some(GameTools.Clock(SecondsPerRound, true))
                && timerText == SecondsPerRound
    {
      var r := DrawRound(pool, draws, order);
      if r.None? {
        screen := NotEnough;
        optionsEnabled := false;
        return;
      }
      RenderRound(r.value);
    }

    /** `renderRound` and the countdown start that follows it: the round's
        buttons are enabled and a fresh countdown of `SecondsPerRound` reports
        its value at once. */
    method RenderRound(rd: Round)
      requires OneCorrect(rd.options, rd.specimen.title)
      modifies this
      ensures Valid() && screen == Asking && round == rd && pool == old(pool)
      ensures countdown == Some(GameTools.Clock(SecondsPerRound, true)) && timerText == SecondsPerRound
    {
      var (clock, signals) := GameTools.StartStep(GameTools.Initial(SecondsPerRound));
      round := rd;
      countdown := Some(clock);
      timerText := signals[0].remaining;
      optionsEnabled := true;
      outcome, again, factsBox := None, None, None;
      screen := Asking;
    }

    /** `appendFactsAndAgain`: the facts box and the follow-up button. The
        proxy's reply stands for the awaited fetch. */
    method AppendFactsAndAgain(correct: bool, reply: ProxyReply)
      modifies this
      ensures again == Some(AgainCaption(correct))
      ensures factsBox == Some(FactsBox(endpoint, SelectFacts(endpoint, reply)))
      ensures pool == old(pool) && screen == old(screen) && round == old(round)
      ensures optionsEnabled == old(optionsEnabled) && countdown == old(countdown)
      ensures outcome == old(outcome) && timerText == old(timerText)
    {
      again := Some(AgainCaption(correct));
      var text;
      if !Utils.Truthy(endpoint) {
        text := DisabledText;
      } else {
        var selected := SelectFacts(endpoint, reply);
        if selected.Err? {
          text := FactsErrorText;
        } else {
          var html := FormatFacts(selected.value);
          text := if html == "" then NoFactsText else html;
        }
      }
      assert text == FactsBox(endpoint, SelectFacts(endpoint, reply));
      factsBox := Some(text);
    }

    /** A click on the `k`-th option (`onAnswer`). Disabled buttons deliver
        no click, so after the round is resolved nothing changes. */
    method Answer(k: nat, reply: ProxyReply)
      requires Valid()
      modifies this
      ensures Valid() && pool == old(pool) && round == old(round)
      ensures !(old(screen) == Asking && k < |round.options|) ==>
                && screen == old(screen) && outcome == old(outcome) && countdown == old(countdown)
                && optionsEnabled == old(optionsEnabled) && timerText == old(timerText)
                && again == old(again) && factsBox == old(factsBox)
      ensures old(screen) == Asking && k < |round.options| ==>
                && screen == Resolved && !optionsEnabled && countdown.None?
                && outcome == Some(if round.options[k].correct then Correct else Incorrect)
                && again == Some(AgainCaption(round.options[k].correct))
                && factsBox == Some(FactsBox(endpoint, SelectFacts(endpoint, reply)))
                && timerText == old(timerText)
    {
      if !(screen == Asking && k < |round.options|) {
        return;
      }
      optionsEnabled := false;
      countdown := None;
      var correct := round.options[k].correct;
      outcome := Some(if correct then Correct else Incorrect);
      AppendFactsAndAgain(correct, reply);
      screen := Resolved;
    }

    /** One firing of the countdown's interval. When it runs out, `timeUp`
        resolves the round as not correct. */
    method Fire(reply: ProxyReply)
      requires Valid()
      modifies this
      ensures Valid() && pool == old(pool) && round == old(round)
      ensures old(countdown).Some? ==> countdown == Some(GameTools.FireStep(old(countdown).value).0)
      ensures old(countdown).None? ==> countdown == old(countdown)
      ensures old(screen) != Asking ==>
                && screen == old(screen) && outcome == old(outcome) && timerText == old(timerText)
                && optionsEnabled == old(optionsEnabled) && again == old(again) && factsBox == old(factsBox)
      ensures old(screen) == Asking && countdown.value.running ==>
                && screen == Asking && timerText == countdown.value.remain && optionsEnabled
                && outcome == old(outcome) && again == old(again) && factsBox == old(factsBox)
      ensures old(screen) == Asking && !countdown.value.running ==>
                && screen == Resolved && outcome == Some(TimeUp) && !optionsEnabled
                && again == Some(AgainCaption(false)) && timerText == countdown.value.remain
                && factsBox == Some(FactsBox(endpoint, SelectFacts(endpoint, reply)))
    {
      if countdown.None? {
        return;
      }
      var (clock, signals) := GameTools.FireStep(countdown.value);
      countdown := Some(clock);
      if signals == [] {
        return;
      }
      timerText := signals[0].remaining;
      if GameTools.Done in signals {
        TimesUp(reply);
      }
    }

    /** `timeUp`: the options are disabled and the round is resolved as not
        correct; the countdown, already stopped, is left as it is. */
    method TimesUp(reply: ProxyReply)
      requires OneCorrect(round.options, round.specimen.title)
      requires countdown.None? || !countdown.value.running
      modifies this
      ensures Valid() && screen == Resolved && outcome == Some(TimeUp) && !optionsEnabled
      ensures again == Some(AgainCaption(false))
      ensures factsBox == Some(FactsBox(endpoint, SelectFacts(endpoint, reply)))
      ensures pool == old(pool) && round == old(round) && countdown == old(countdown) && timerText == old(timerText)
    {
      optionsEnabled := false;
      outcome := Some(TimeUp);
      AppendFactsAndAgain(false, reply);
      screen := Resolved;
    }

    /** The follow-up button (`{ once: true }`): present only on a resolved round. */
    method PlayAgain(draws: seq<nat>, order: seq<nat>)
      requires Valid()
      requires |draws| >= |pool| && |order| >= 2
      modifies this
      ensures Valid() && pool == old(pool)
      ensures old(screen) != Resolved ==>
                && screen == old(screen) && round == old(round) && countdown == old(countdown)
                && timerText == old(timerText) && optionsEnabled == old(optionsEnabled)
                && outcome == old(outcome) && again == old(again) && factsBox == old(factsBox)
      ensures old(screen) == Resolved ==>
                && (screen == NotEnough <==> |pool| < 2)
                && (screen == Asking <==> |pool| >= 2)
      ensures old(screen) == Resolved && screen == NotEnough ==> countdown == old(countdown)
      ensures old(screen) == Resolved && screen == Asking ==>
                && multiset([round.specimen, round.distractor]) <= multiset(pool)
                && countdown == Some(GameTools.Clock(SecondsPerRound, true))
                && timerText == SecondsPerRound
    {
      if screen != Resolved {
        return;
      }
      NewRound(draws, order);
    }
  }
}
