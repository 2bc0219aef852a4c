/** String helpers standing in for the JavaScript built-ins the site calls
    (`toLowerCase`, `trim`, `startsWith`, `endsWith`, `includes`,
    `split("/").filter(Boolean)`, `join`, `encodeURIComponent`). */
module Text {
  import opened Wrappers

  // ---------- Characters ----------

  predicate IsAsciiUpper(c: char) { 'A' <= c <= 'Z' }
  predicate IsAsciiLower(c: char) { 'a' <= c <= 'z' }
  predicate IsDigit(c: char) { '0' <= c <= '9' }

  /** The characters the slug alphabet keeps: `[a-z0-9]`. */
  predicate IsLowerAlnum(c: char) { IsAsciiLower(c) || IsDigit(c) }

  /** `toLowerCase` on one character, restricted to ASCII letters. */
  function LowerChar(c: char): (r: char)
    ensures !IsAsciiUpper(r)
    ensures IsAsciiUpper(c) ==> IsAsciiLower(r)
    ensures !IsAsciiUpper(c) ==> r == c
  {
    if IsAsciiUpper(c) then (c as int - 'A' as int + 'a' as int) as char else c
  }

  function Lower(s: string): (r: string)
    ensures |r| == |s|
    ensures forall i :: 0 <= i < |s| ==> r[i] == LowerChar(s[i])
  {
    if s == [] then [] else [LowerChar(s[0])] + Lower(s[1..])
  }

  /** The white space and line terminators that JavaScript's `trim` removes. */
  predicate IsJsSpace(c: char)
  {
    c == ' ' || c == '\t' || c == '\n' || c == '\r' || c == '\U{000B}' || c == '\U{000C}'
    || c == '\U{00A0}' || c == '\U{FEFF}' || c == '\U{1680}' || ('\U{2000}' <= c <= '\U{200A}')
    || c == '\U{2028}' || c == '\U{2029}' || c == '\U{202F}' || c == '\U{205F}' || c == '\U{3000}'
  }

  function TrimStart(s: string): (r: string)
    ensures |r| <= |s| && r == s[|s| - |r|..]
    ensures r == [] || !IsJsSpace(r[0])
    ensures forall i :: 0 <= i < |s| - |r| ==> IsJsSpace(s[i])
  {
    if s != [] && IsJsSpace(s[0]) then TrimStart(s[1..]) else s
  }

  function TrimEnd(s: string): (r: string)
    ensures |r| <= |s| && r == s[..|r|]
    ensures r == [] || !IsJsSpace(r[|r| - 1])
    ensures forall i :: |r| <= i < |s| ==> IsJsSpace(s[i])
  {
    if s != [] && IsJsSpace(s[|s| - 1]) then TrimEnd(s[..|s| - 1]) else s
  }

  /** `trim`: the input without its leading and trailing white space. */
  function Trim(s: string): (r: string)
    ensures r == [] || (!IsJsSpace(r[0]) && !IsJsSpace(r[|r| - 1]))
    ensures exists i, j :: 0 <= i <= j <= |s| && r == s[i..j]
  {
    var t := TrimStart(s);
    var u := TrimEnd(t);
    SliceOfSuffix(s, |s| - |t|, |u|);
    u
  }

  lemma SliceOfSuffix(s: string, a: nat, n: nat)
    requires a <= |s| && n <= |s| - a
    ensures s[a..][..n] == s[a..a + n]
  {
    assert forall i :: 0 <= i < n ==> s[a..][..n][i] == s[a + i];
  }

  predicate StartsWith(s: string, prefix: string)
  {
    |prefix| <= |s| && s[..|prefix|] == prefix
  }

  predicate EndsWith(s: string, suffix: string)
  {
    |suffix| <= |s| && s[|s| - |suffix|..] == suffix
  }

  /** `includes`: `sub` occurs somewhere in `s`. */
  predicate Contains(s: string, sub: string)
  {
    exists i :: 0 <= i <= |s| - |sub| && OccursAt(s, sub, i)
  }

  predicate OccursAt(s: string, sub: string, i: int)
    requires 0 <= i <= |s| - |sub|
  {
    s[i..i + |sub|] == sub
  }

  lemma ContainsEmpty(s: string)
    ensures Contains(s, "")
  {
    assert OccursAt(s, "", 0);
  }

  // ---------- Path segments ----------

  /** The index of the first `c` at or after `i`, or `|s|` if there is none. */
  function IndexFrom(s: string, c: char, i: nat): (k: nat)
    requires i <= |s|
    ensures i <= k <= |s|
    ensures forall j :: i <= j < k ==> s[j] != c
    ensures k < |s| ==> s[k] == c
    decreases |s| - i
  {
    if i == |s| || s[i] == c then i else IndexFrom(s, c, i + 1)
  }

  /** `s.split("/").filter(Boolean)`: the non-empty pieces between slashes, in order. */
  function Segments(s: string): (r: seq<string>)
    ensures forall i :: 0 <= i < |r| ==> r[i] != "" && '/' !in r[i]
    decreases |s|
  {
    if s == [] then []
    else if s[0] == '/' then Segments(s[1..])
    else
      var k := IndexFrom(s, '/', 0);
      [s[..k]] + Segments(s[k..])
  }

  /** `segs[0]` after the split: the first non-empty segment, if any. */
  function FirstSegment(s: string): (r: Option<string>)
    ensures r.Some? ==> r.value != "" && '/' !in r.value
  {
    var segs := Segments(s);
    if segs == [] then None else Some(segs[0])
  }

  lemma {:induction false} FirstSegmentOfSingle(name: string, rest: string)
    requires name != [] && '/' !in name
    ensures FirstSegment("/" + name + "/" + rest) == Some(name)
    ensures FirstSegment("/" + name) == Some(name)
  {
    var p := "/" + name + "/" + rest;
    var t := p[1..];
    assert t == name + ("/" + rest);
    CharPosition(name, '/', "/" + rest, 0);
    assert t[..|name|] == name;
    assert Segments(p) == Segments(t) == [name] + Segments(t[|name|..]);
    var q := "/" + name;
    var u := q[1..];
    assert u == name + "";
    CharPosition(name, '/', "", 0);
    assert u[..|name|] == name;
    assert Segments(q) == Segments(u) == [name] + Segments(u[|name|..]);
  }

  /** `s.split(c)`: the pieces between occurrences of `c`, in order. */
  function SplitOn(s: string, c: char): (parts: seq<string>)
    ensures |parts| >= 1
    ensures forall i :: 0 <= i < |parts| ==> c !in parts[i]
    decreases |s|
  {
    var k := IndexFrom(s, c, 0);
    if k == |s| then [s] else [s[..k]] + SplitOn(s[k + 1..], c)
  }

  /** Splitting text that joins a separator-free piece to the rest gives
      that piece first, then the pieces of the rest. */
  lemma {:induction false} SplitOnJoined(a: string, c: char, b: string)
    requires c !in a
    ensures SplitOn(a + [c] + b, c) == [a] + SplitOn(b, c)
  {
    var s := a + [c] + b;
    CharPosition(a, c, [c] + b, 0);
    assert s == a + ([c] + b);
    assert s[..|a|] == a;
    assert s[|a| + 1..] == b;
  }

  lemma {:induction false} SplitOnPlain(a: string, c: char)
    requires c !in a
    ensures SplitOn(a, c) == [a]
  {
    CharPosition(a, c, [], 0);
    assert a + [] == a;
  }

  lemma {:induction false} CharPosition(a: string, c: char, rest: string, i: nat)
    requires c !in a && i <= |a|
    requires rest == [] || rest[0] == c
    ensures IndexFrom(a + rest, c, i) == |a|
    decreases |a| - i
  {
    var s := a + rest;
    if i < |a| {
      assert s[i] == a[i];
      CharPosition(a, c, rest, i + 1);
    } else if rest != [] {
      assert s[i] == rest[0];
    }
  }

  // ---------- Joining and numbers ----------

  /** `xs.join(sep)`. */
  function Join(xs: seq<string>, sep: string): (r: string)
    ensures xs == [] ==> r == ""
    ensures |xs| == 1 ==> r == xs[0]
  {
    if xs == [] then ""
    else if |xs| == 1 then xs[0]
    else xs[0] + sep + Join(xs[1..], sep)
  }

  function DigitChar(d: nat): (c: char)
    requires d < 10
    ensures IsDigit(c)
  {
    ('0' as int + d) as char
  }

  /** `String(n)` for a non-negative integer: its decimal digits. */
  function NatToString(n: nat): (r: string)
    ensures r != []
    ensures forall i :: 0 <= i < |r| ==> IsDigit(r[i])
  {
    if n < 10 then [DigitChar(n)] else NatToString(n / 10) + [DigitChar(n % 10)]
  }

  // ---------- encodeURIComponent ----------

  /** The characters `encodeURIComponent` leaves as they are. */
  predicate IsUnreserved(c: char)
  {
    IsAsciiUpper(c) || IsAsciiLower(c) || IsDigit(c)
    || c == '-' || c == '_' || c == '.' || c == '!' || c == '~' || c == '*'
    || c == '\'' || c == '(' || c == ')'
  }

  function HexDigit(d: nat): (c: char)
    requires d < 16
    ensures IsUnreserved(c)
  {
    if d < 10 then DigitChar(d) else ('A' as int + (d - 10)) as char
  }

  /** The UTF-8 bytes of one Unicode scalar value. */
  function Utf8(c: char): (bytes: seq<nat>)
    ensures 1 <= |bytes| <= 4
    ensures forall i :: 0 <= i < |bytes| ==> bytes[i] < 256
  {
    var cp := c as int;
    if cp < 0x80 then [cp]
    else if cp < 0x800 then [0xC0 + cp / 64, 0x80 + cp % 64]
    else if cp < 0x10000 then [0xE0 + cp / 4096, 0x80 + (cp / 64) % 64, 0x80 + cp % 64]
    else [0xF0 + cp / 262144, 0x80 + (cp / 4096) % 64, 0x80 + (cp / 64) % 64, 0x80 + cp % 64]
  }

  function PercentBytes(bytes: seq<nat>): (r: string)
    requires forall i :: 0 <= i < |bytes| ==> bytes[i] < 256
    ensures |r| == 3 * |bytes|
    ensures forall i :: 0 <= i < |r| ==> IsUnreserved(r[i]) || r[i] == '%'
  {
    if bytes == [] then ""
    else ['%', HexDigit(bytes[0] / 16), HexDigit(bytes[0] % 16)] + PercentBytes(bytes[1..])
  }

  function EncodeChar(c: char): (r: string)
    ensures forall i :: 0 <= i < |r| ==> IsUnreserved(r[i]) || r[i] == '%'
    ensures IsUnreserved(c) ==> r == [c]
  {
    if IsUnreserved(c) then [c] else PercentBytes(Utf8(c))
  }

  /** `encodeURIComponent`: unreserved characters stay, every other one becomes
      the percent-encoded upper-case hex of its UTF-8 bytes. */
  function EncodeUriComponent(s: string): (r: string)
    ensures |r| >= |s|
    ensures forall i :: 0 <= i < |r| ==> IsUnreserved(r[i]) || r[i] == '%'
  {
    if s == [] then "" else EncodeChar(s[0]) + EncodeUriComponent(s[1..])
  }

  // ---------- Query strings ----------

  /** The query string of a link split back into its parameters: the text
      after the first '?', cut at '&', each piece cut at its first '='. */
  function QueryParams(href: string): seq<(string, string)>
  {
    var q := IndexFrom(href, '?', 0);
    if q == |href| then [] else Pairs(SplitOn(href[q + 1..], '&'))
  }

  function Pairs(pieces: seq<string>): (r: seq<(string, string)>)
    ensures |r| == |pieces|
  {
    if pieces == [] then [] else [KeyValue(pieces[0])] + Pairs(pieces[1..])
  }

  function KeyValue(piece: string): (string, string)
  {
    var e := IndexFrom(piece, '=', 0);
    if e == |piece| then (piece, "") else (piece[..e], piece[e + 1..])
  }

  /** The path of a link: everything before the first '?'. */
  function PathOf(href: string): string
  {
    href[..IndexFrom(href, '?', 0)]
  }

  lemma {:induction false} EncodedIsPlain(s: string)
    ensures '&' !in EncodeUriComponent(s) && '=' !in EncodeUriComponent(s) && '?' !in EncodeUriComponent(s)
  {
    var e := EncodeUriComponent(s);
    forall i | 0 <= i < |e| ensures e[i] != '&' && e[i] != '=' && e[i] != '?' {
      assert IsUnreserved(e[i]) || e[i] == '%';
    }
  }

  /** Splitting a "key=value" piece whose key has no '=' gives the pair back. */
  lemma {:induction false} KeyValueOf(key: string, value: string)
    requires '=' !in key
    ensures KeyValue(key + "=" + value) == (key, value)
  {
    var p := key + "=" + value;
    CharPosition(key, '=', "=" + value, 0);
    assert p == key + ("=" + value);
    assert p[..|key|] == key && p[|key| + 1..] == value;
  }

  /** A link's '?' is the one its builder put after the page path. */
  lemma {:induction false} QueryAfterPath(path: string, query: string)
    requires '?' !in path
    ensures IndexFrom(path + "?" + query, '?', 0) == |path|
    ensures (path + "?" + query)[|path| + 1..] == query
    ensures PathOf(path + "?" + query) == path
  {
    CharPosition(path, '?', "?" + query, 0);
    assert path + "?" + query == path + ("?" + query);
  }

  /** A link with one "key=value" parameter reads back as that path and pair. */
  lemma {:induction false} OneParamRoundTrip(path: string, k: string, v: string)
    requires '?' !in path && '=' !in k && '&' !in k && '&' !in v
    ensures PathOf(path + "?" + k + "=" + v) == path
    ensures QueryParams(path + "?" + k + "=" + v) == [(k, v)]
  {
    var query := k + "=" + v;
    var href := path + "?" + query;
    assert path + "?" + k + "=" + v == href;
    QueryAfterPath(path, query);
    SplitOnPlain(query, '&');
    KeyValueOf(k, v);
    assert QueryParams(href) == Pairs([query]) == [KeyValue(query)] + Pairs([]);
  }

  /** A link with two "key=value" parameters reads back as that path and
      the two pairs, in order. */
  lemma {:induction false} TwoParamRoundTrip(path: string, k1: string, v1: string, k2: string, v2: string)
    requires '?' !in path && '=' !in k1 && '&' !in k1 && '&' !in v1
    requires '=' !in k2 && '&' !in k2 && '&' !in v2
    ensures PathOf(path + "?" + k1 + "=" + v1 + "&" + k2 + "=" + v2) == path
    ensures QueryParams(path + "?" + k1 + "=" + v1 + "&" + k2 + "=" + v2) == [(k1, v1), (k2, v2)]
  {
    var first := k1 + "=" + v1;
    var second := k2 + "=" + v2;
    var query := first + ['&'] + second;
    var href := path + "?" + query;
    assert path + "?" + k1 + "=" + v1 + "&" + k2 + "=" + v2 == href;
    QueryAfterPath(path, query);
    SplitOnJoined(first, '&', second);
    SplitOnPlain(second, '&');
    KeyValueOf(k1, v1);
    KeyValueOf(k2, v2);
    assert QueryParams(href) == Pairs([first, second]);
    assert Pairs([first, second]) == [KeyValue(first)] + Pairs([second]);
    assert Pairs([second]) == [KeyValue(second)] + Pairs([]);
  }
}
