/** Text functions of the sanitizer over the character classes of Unicode. */
module Text {
  import opened Domain
  import opened Base64
  import opened Decimal

  // Character classes and the URL parser, which gives the normalised form of
  // an absolute http or https address.
  datatype Env = Env(lower: char -> char, space: char -> bool, control: char -> bool, invisible: char -> bool,
    url: string -> Option<string>)

  // ASCII characters that are no capital letters and no blanks.
  predicate Plain(c: char) {
    '!' <= c <= '~' && !('A' <= c <= 'Z')
  }

  // What is known of them: folding to lower case is done once and for all,
  // plain characters are neither folded nor blank, and the parser accepts its
  // own output as it is.
  ghost predicate Sound(env: Env) {
    && (forall c :: env.lower(env.lower(c)) == env.lower(c))
    && (forall c :: 'A' <= c <= 'Z' ==> env.lower(c) == (c as int + 32) as char && !env.space(c))
    && (forall c :: Plain(c) ==> env.lower(c) == c && !env.space(c) && !env.control(c))
    && env.space(' ') && env.lower(' ') == ' '
    && (forall v :: env.url(v).Some? ==> Accepted(env, env.url(v).value))
  }

  ghost predicate Accepted(env: Env, u: string) {
    u != "" && !HasControl(env, u) && Trim(env, u) == u && env.url(u) == Some(u)
  }

  predicate AllPlain(s: string) {
    forall i | 0 <= i < |s| :: Plain(s[i])
  }

  predicate HasControl(env: Env, s: string) {
    exists i | 0 <= i < |s| :: env.control(s[i])
  }

  function Lower(env: Env, s: string): string {
    seq(|s|, i requires 0 <= i < |s| => env.lower(s[i]))
  }

  function TrimLeft(env: Env, s: string): string {
    if s != "" && env.space(s[0]) then TrimLeft(env, s[1..]) else s
  }

  function TrimRight(env: Env, s: string): string {
    if s != "" && env.space(s[|s| - 1]) then TrimRight(env, s[..|s| - 1]) else s
  }

  function Trim(env: Env, s: string): string {
    TrimRight(env, TrimLeft(env, s))
  }

  function AsciiLower(c: char): char {
    if 'A' <= c <= 'Z' then (c as int + 32) as char else c
  }

  // The classes as they are on ASCII, and a parser that knows one address.
  const ASCII := Env(AsciiLower, c => c == ' ' || '\t' <= c <= '\r', c => c < ' ', c => false,
                     s => if s == "http://a/" then Some(s) else None)

  lemma AsciiIsSound()
    ensures Sound(ASCII) && ASCII.url("http://a/") == Some("http://a/")
  {
    var u := "http://a/";
    assert TrimLeft(ASCII, u) == u && TrimRight(ASCII, u) == u;
    assert Accepted(ASCII, u);
  }

  lemma LowerTwice(env: Env, s: string)
    requires Sound(env)
    ensures Lower(env, Lower(env, s)) == Lower(env, s)
  {
  }

  lemma LowerPlain(env: Env, s: string)
    requires Sound(env) && AllPlain(s)
    ensures Lower(env, s) == s
  {
  }

  lemma {:induction false} TrimmedEnds(env: Env, s: string)
    ensures var t := Trim(env, s); t == "" || (!env.space(t[0]) && !env.space(t[|t| - 1]))
  {
    LeftEnds(env, s);
    RightEnds(env, TrimLeft(env, s));
  }

  lemma {:induction false} LeftEnds(env: Env, s: string)
    ensures var t := TrimLeft(env, s); t == "" || !env.space(t[0])
  {
    if s != "" && env.space(s[0]) { LeftEnds(env, s[1..]); }
  }

  lemma {:induction false} RightEnds(env: Env, s: string)
    ensures var t := TrimRight(env, s); t <= s && (t == "" || !env.space(t[|t| - 1]))
  {
    if s != "" && env.space(s[|s| - 1]) { RightEnds(env, s[..|s| - 1]); }
  }

  lemma TrimTwice(env: Env, s: string)
    ensures Trim(env, Trim(env, s)) == Trim(env, s)
  {
    TrimmedEnds(env, s);
  }

  lemma TrimPlain(env: Env, s: string)
    requires Sound(env) && AllPlain(s)
    ensures Trim(env, s) == s
  {
  }

  // ------------------------------------------------------ bounded values

  function Bounded(env: Env, v: string, max: nat): Option<string> {
    if |v| > max || HasControl(env, v) then None else Some(v)
  }

  predicate LanguageChar(c: char) {
    'a' <= c <= 'z' || 'A' <= c <= 'Z' || '0' <= c <= '9' || c == '-'
  }

  predicate SafeLanguage(v: string) {
    v != "" && |v| <= 35 && forall i | 0 <= i < |v| :: LanguageChar(v[i])
  }

  lemma LanguageStays(env: Env, v: string)
    requires Sound(env) && SafeLanguage(v)
    ensures var w := Lower(env, v); SafeLanguage(w) && AllPlain(w) && Lower(env, w) == w
  {
    LowerTwice(env, v);
  }

  function BoundedInteger(env: Env, v: string, min: int, max: int): Option<string> {
    if v == "" || Trim(env, v) != v then None
    else
      var n := Parse(v);
      if n.None? || n.value < min || n.value > max then None else Some(Format(n.value))
  }

  lemma IntegerStays(env: Env, v: string, min: int, max: int)
    requires Sound(env) && BoundedInteger(env, v, min, max).Some?
    ensures var w := BoundedInteger(env, v, min, max).value;
            AllPlain(w) && Trim(env, w) == w && BoundedInteger(env, w, min, max) == Some(w)
  {
    var n := Parse(v).value;
    FormatPlain(n);
    FormatParses(n);
    TrimPlain(env, Format(n));
  }

  lemma FormatPlain(n: int)
    ensures AllPlain(Format(n)) && Format(n) != ""
  {
    FormatParses(n);
    if n < 0 {
      assert forall i | 1 <= i < |Format(n)| :: Format(n)[i] == Format(n)[1..][i - 1];
    } else {
      DigitsNumber(n);
    }
  }

  // --------------------------------------------------------- rel words

  function Words(env: Env, s: string): seq<string>
    decreases |s|
  {
    if s == "" then []
    else if env.space(s[0]) then Words(env, s[1..])
    else
      var n := WordEnd(env, s);
      [s[..n]] + Words(env, s[n..])
  }

  function WordEnd(env: Env, s: string): (n: nat)
    ensures n <= |s| && (s != "" && !env.space(s[0]) ==> n > 0)
    ensures forall i | 0 <= i < n :: !env.space(s[i])
    ensures n == |s| || env.space(s[n])
  {
    if s == "" || env.space(s[0]) then 0 else 1 + WordEnd(env, s[1..])
  }

  function Join(words: seq<string>): string {
    if words == [] then "" else if |words| == 1 then words[0] else words[0] + " " + Join(words[1..])
  }

  lemma {:induction false} WordsJoin(env: Env, words: seq<string>)
    requires Sound(env) && forall i | 0 <= i < |words| :: words[i] != "" && AllPlain(words[i])
    ensures Words(env, Join(words)) == words
    decreases |words|
  {
    if words != [] {
      var w, s := words[0], Join(words);
      WordsJoin(env, words[1..]);
      if |words| == 1 {
        WordEndIs(env, s, |w|);
        assert s[|s|..] == "" && s[..|s|] == s;
        assert words == [w];
      } else {
        assert s[..|w|] == w && s[|w|] == ' ' && s[|w|..][0] == ' ' && s[|w|..][1..] == Join(words[1..]);
        assert forall i | 0 <= i < |w| :: s[i] == w[i];
        WordEndIs(env, s, |w|);
        assert words == [w] + words[1..];
      }
    }
  }

  lemma WordEndIs(env: Env, s: string, n: nat)
    requires n <= |s| && (forall i | 0 <= i < n :: !env.space(s[i])) && (n == |s| || env.space(s[n]))
    ensures WordEnd(env, s) == n
  {
  }

  const RELATIONS: set<string> := {"nofollow", "noopener", "noreferrer", "sponsored", "ugc"}

  // Each word once, at its first place.
  function Distinct(words: seq<string>): seq<string>
    decreases |words|
  {
    if words == [] then []
    else
      var front, last := Distinct(words[..|words| - 1]), words[|words| - 1];
      if last in front then front else front + [last]
  }

  function SafeRel(env: Env, v: string): Option<string> {
    var words := Words(env, Lower(env, v));
    if words == [] || exists w <- words :: w !in RELATIONS then None else Some(Join(Distinct(words)))
  }

  lemma RelationsPlain(w: string)
    requires w in RELATIONS
    ensures AllPlain(w) && w != ""
  {
  }

  lemma {:induction false} DistinctWords(words: seq<string>)
    ensures var d := Distinct(words);
            && (forall w :: w in d <==> w in words) && (words != [] ==> d != [])
            && (forall i, j | 0 <= i < j < |d| :: d[i] != d[j])
    decreases |words|
  {
    if words != [] {
      DistinctWords(words[..|words| - 1]);
      assert words == words[..|words| - 1] + [words[|words| - 1]];
    }
  }

  lemma {:induction false} DistinctStays(words: seq<string>)
    requires forall i, j | 0 <= i < j < |words| :: words[i] != words[j]
    ensures Distinct(words) == words
    decreases |words|
  {
    if words != [] {
      DistinctStays(words[..|words| - 1]);
      assert words == words[..|words| - 1] + [words[|words| - 1]];
    }
  }

  lemma {:induction false} JoinTrimmed(env: Env, words: seq<string>)
    requires Sound(env) && words != [] && forall i | 0 <= i < |words| :: words[i] != "" && AllPlain(words[i])
    ensures var s := Join(words);
            && s != "" && Plain(s[0]) && Plain(s[|s| - 1])
            && (forall i | 0 <= i < |s| :: Plain(s[i]) || s[i] == ' ')
    decreases |words|
  {
    if |words| > 1 { JoinTrimmed(env, words[1..]); }
  }

  // Distinct relations joined are read back as they are.
  lemma JoinedRelations(env: Env, d: seq<string>)
    requires Sound(env) && d != [] && (forall i | 0 <= i < |d| :: d[i] in RELATIONS)
    requires forall i, j | 0 <= i < j < |d| :: d[i] != d[j]
    ensures Trim(env, Join(d)) == Join(d) && SafeRel(env, Join(d)) == Some(Join(d))
  {
    forall i | 0 <= i < |d| ensures AllPlain(d[i]) && d[i] != "" { RelationsPlain(d[i]); }
    JoinedTrims(env, d);
    WordsJoin(env, d);
    DistinctStays(d);
    assert forall w <- d :: w in RELATIONS;
  }

  lemma JoinedTrims(env: Env, words: seq<string>)
    requires Sound(env) && words != [] && forall i | 0 <= i < |words| :: words[i] != "" && AllPlain(words[i])
    ensures Trim(env, Join(words)) == Join(words) && Lower(env, Join(words)) == Join(words)
  {
    JoinTrimmed(env, words);
  }

  lemma RelStays(env: Env, v: string)
    requires Sound(env) && SafeRel(env, v).Some?
    ensures var w := SafeRel(env, v).value; Trim(env, w) == w && SafeRel(env, w) == Some(w)
  {
    var words := Words(env, Lower(env, v));
    var d := Distinct(words);
    DistinctWords(words);
    forall i | 0 <= i < |d| ensures d[i] in RELATIONS { assert d[i] in words; }
    JoinedRelations(env, d);
  }

  method CheckRel(env: Env, v: string) returns (r: Option<string>)
    ensures r == SafeRel(env, v)
  {
    var words := Words(env, Lower(env, v));
    if words == [] { return None; }
    var clean: seq<string>, seen: set<string> := [], {};
    for i := 0 to |words|
      invariant clean == Distinct(words[..i])
      invariant (forall w :: w in seen <==> w in clean)
      invariant forall k | 0 <= k < i :: words[k] in RELATIONS
    {
      assert words[..i + 1][..i] == words[..i];
      if words[i] !in RELATIONS {
        assert words[i] in words;
        return None;
      }
      if words[i] !in seen {
        seen := seen + {words[i]};
        clean := clean + [words[i]];
      }
    }
    assert words[..|words|] == words;
    return Some(Join(clean));
  }

  // ------------------------------------------------------- inline images

  const MAX_IMAGE: nat := 0x10_0000

  function FirstComma(s: string): Option<(string, string)>
    decreases |s|
  {
    if s == "" then None
    else if s[0] == ',' then Some(("", s[1..]))
    else
      var rest := FirstComma(s[1..]);
      if rest.None? then None else Some(([s[0]] + rest.value.0, rest.value.1))
  }

  lemma {:induction false} CommaAfter(a: string, b: string)
    requires forall i | 0 <= i < |a| :: a[i] != ','
    ensures FirstComma(a + "," + b) == Some((a, b))
    decreases |a|
  {
    if a == "" {
      assert ("" + "," + b)[1..] == b;
    } else {
      CommaAfter(a[1..], b);
      assert (a + "," + b)[0] == a[0] && (a + "," + b)[1..] == a[1..] + "," + b;
      assert [a[0]] + a[1..] == a;
    }
  }

  function MediaType(header: string): Option<string> {
    if header == "data:image/png;base64" then Some("png")
    else if header == "data:image/jpeg;base64" then Some("jpeg")
    else if header == "data:image/webp;base64" then Some("webp")
    else None
  }

  // Digits of the standard alphabet, then at most two padding characters.
  predicate PayloadOk(s: string) {
    && (forall i | 0 <= i < |s| :: Value(STANDARD, s[i]).Some? || (s[i] == '=' && i + 2 >= |s|))
    && (|s| >= 2 && s[|s| - 2] == '=' ==> s[|s| - 1] == '=')
  }

  function DecodePayload(s: string): Option<string> {
    var padded := DecodePadded(STANDARD, s, true);
    if padded.Some? then padded else DecodeDigits(STANDARD, s, true)
  }

  function WrittenImage(media: string, d: string): string
    requires IsBytes(d)
  {
    "data:image/" + media + ";base64," + EncodePadded(STANDARD, d)
  }

  function InlineImage(env: Env, v: string): Option<string> {
    var parts := FirstComma(Trim(env, v));
    if parts.None? then None
    else
      var (header, payload) := parts.value;
      var media := MediaType(Lower(env, header));
      if media.None? || payload == "" || |payload| > (MAX_IMAGE + 2) / 3 * 4 + 4 || !PayloadOk(payload) then None
      else
        var decoded := DecodePayload(payload);
        if decoded.None? || decoded.value == "" || |decoded.value| > MAX_IMAGE then None
        else
          DecodedBytes(payload);
          Some(WrittenImage(media.value, decoded.value))
  }

  lemma DecodedBytes(s: string)
    ensures DecodePayload(s).Some? ==> IsBytes(DecodePayload(s).value)
  {
    DigitsBytes(STANDARD, s, true);
    if |s| % 4 == 0 && Pads(s) <= |s| { DigitsBytes(STANDARD, s[..|s| - Pads(s)], true); }
  }

  lemma {:induction false} DigitsBytes(a: Alphabet, s: string, strict: bool)
    ensures DecodeDigits(a, s, strict).Some? ==> IsBytes(DecodeDigits(a, s, strict).value)
    decreases |s|
  {
    if |s| > 4 {
      GroupBytes(a, s[..4], strict);
      DigitsBytes(a, s[4..], strict);
    } else if |s| >= 2 {
      GroupBytes(a, s, strict);
    }
  }

  lemma GroupBytes(a: Alphabet, s: string, strict: bool)
    requires 2 <= |s| <= 4
    ensures Ungroup(a, s, strict).Some? ==> IsBytes(Ungroup(a, s, strict).value)
  {
  }

  lemma PaddedPlain(d: string)
    requires IsBytes(d)
    ensures PayloadOk(EncodePadded(STANDARD, d)) && AllPlainOrUpper(EncodePadded(STANDARD, d))
  {
    DigitsBack(STANDARD, d, true);
    var e := Encode(STANDARD, d);
    CleanPlain(e);
    PaddingPlain(e, Padding(|e|));
  }

  lemma CleanPlain(e: string)
    requires Clean(STANDARD, e)
    ensures AllPlainOrUpper(e)
  {
    forall i | 0 <= i < |e| ensures '!' <= e[i] <= '~' {
      assert Value(STANDARD, e[i]).Some?;
    }
  }

  lemma PaddingPlain(e: string, p: string)
    requires AllPlainOrUpper(e) && Clean(STANDARD, e)
    requires p in {"", "=", "=="}
    ensures PayloadOk(e + p) && AllPlainOrUpper(e + p)
  {
    var s := e + p;
    forall i | 0 <= i < |s| ensures Value(STANDARD, s[i]).Some? || (s[i] == '=' && i + 2 >= |s|) {
      if i < |e| { assert s[i] == e[i]; }
    }
    assert forall i | 0 <= i < |e| :: s[i] == e[i];
  }

  predicate AllPlainOrUpper(s: string) {
    forall i | 0 <= i < |s| :: '!' <= s[i] <= '~'
  }

  lemma HeaderBack(env: Env, media: string)
    requires Sound(env) && media in {"png", "jpeg", "webp"}
    ensures var header := "data:image/" + media + ";base64";
            && Lower(env, header) == header && MediaType(header) == Some(media)
            && (forall i | 0 <= i < |header| :: header[i] != ',' && Plain(header[i]))
  {
    if media == "png" {
      assert "data:image/" + media + ";base64" == "data:image/png;base64";
    } else if media == "jpeg" {
      assert "data:image/" + media + ";base64" == "data:image/jpeg;base64";
    } else {
      assert "data:image/" + media + ";base64" == "data:image/webp;base64";
    }
    LowerPlain(env, "data:image/" + media + ";base64");
  }

  lemma PayloadBack(d: string)
    requires IsBytes(d) && d != "" && |d| <= MAX_IMAGE
    ensures var p := EncodePadded(STANDARD, d);
            && p != "" && |p| <= (MAX_IMAGE + 2) / 3 * 4 + 4 && PayloadOk(p) && AllPlainOrUpper(p)
            && DecodePayload(p) == Some(d)
  {
    PaddedBack(STANDARD, d);
    PaddedLength(STANDARD, d);
    PaddedPlain(d);
  }

  lemma HeaderComma(media: string, p: string)
    ensures "data:image/" + media + ";base64," + p == "data:image/" + media + ";base64" + "," + p
  {
  }

  lemma WrittenImageStays(env: Env, media: string, d: string)
    requires Sound(env) && media in {"png", "jpeg", "webp"} && IsBytes(d) && d != "" && |d| <= MAX_IMAGE
    ensures var w := WrittenImage(media, d); Trim(env, w) == w && InlineImage(env, w) == Some(w)
  {
    var header, p := "data:image/" + media + ";base64", EncodePadded(STANDARD, d);
    PayloadBack(d);
    HeaderBack(env, media);
    HeaderComma(media, p);
    CommaAfter(header, p);
    ImageTrimmed(env, header, p);
    ImageRead(env, header + "," + p, header, media, p, d);
  }

  lemma ImageRead(env: Env, w: string, header: string, media: string, p: string, d: string)
    requires Trim(env, w) == w && FirstComma(w) == Some((header, p)) && MediaType(Lower(env, header)) == Some(media)
    requires p != "" && |p| <= (MAX_IMAGE + 2) / 3 * 4 + 4 && PayloadOk(p) && DecodePayload(p) == Some(d)
    requires d != "" && |d| <= MAX_IMAGE && IsBytes(d)
    ensures InlineImage(env, w) == Some(WrittenImage(media, d))
  {
  }

  // An accepted image is written in one form, which is accepted as it is.
  lemma ImageStays(env: Env, v: string)
    requires Sound(env) && InlineImage(env, v).Some?
    ensures var w := InlineImage(env, v).value; Trim(env, w) == w && InlineImage(env, w) == Some(w)
  {
    var (header, payload) := FirstComma(Trim(env, v)).value;
    DecodedBytes(payload);
    WrittenImageStays(env, MediaType(Lower(env, header)).value, DecodePayload(payload).value);
  }

  lemma ImageTrimmed(env: Env, front: string, again: string)
    requires Sound(env) && front != "" && Plain(front[0]) && AllPlainOrUpper(again) && again != ""
    ensures Trim(env, front + "," + again) == front + "," + again
  {
    var w := front + "," + again;
    assert w[|w| - 1] == again[|again| - 1];
  }
}

/** The tree-to-tree sanitizer. */
module Sanitizer {
  import opened Domain
  import opened Ordering
  import opened Text
  import Base64
  import Decimal

  datatype Attribute = Attribute(key: string, value: string)

  // Comments, doctypes and raw nodes are all Other.
  datatype Node =
    | TextNode(data: string)
    | Element(tag: string, namespace: string, attrs: seq<Attribute>, children: seq<Node>)
    | Other(children: seq<Node>)

  const ALLOWED: set<string> := {
    "a", "abbr", "address", "article", "aside", "b", "bdi", "bdo", "blockquote", "br", "caption", "cite", "code", "col",
    "colgroup", "dd", "del", "details", "div", "dl", "dt", "em", "figcaption", "figure", "footer", "h1", "h2", "h3", "h4",
    "h5", "h6", "header", "hgroup", "hr", "i", "img", "ins", "kbd", "li", "main", "mark", "nav", "ol", "p", "pre", "q",
    "rp", "rt", "ruby", "s", "samp", "section", "small", "span", "strong", "sub", "summary", "sup", "table", "tbody", "td",
    "tfoot", "th", "thead", "time", "tr", "u", "ul", "var", "wbr"}

  const DROPPED: set<string> := {
    "applet", "audio", "base", "button", "canvas", "embed", "fieldset", "form", "frame", "frameset", "head", "iframe",
    "input", "link", "map", "math", "meta", "noscript", "object", "optgroup", "option", "param", "picture", "portal",
    "script", "select", "slot", "source", "style", "svg", "template", "textarea", "track", "video", "xmp"}

  const VOID: set<string> := {"br", "col", "hr", "img", "wbr"}

  const MAX_RUNES := 1000
  const MAX_DIMENSION := 4096
  const MAX_SPAN := 1000

  // ---------------------------------------------------------- attributes

  // What an attribute of the element may say, given its trimmed value.
  function Validate(env: Env, tag: string, key: string, v: string): Option<string> {
    if key == "href" then if tag == "a" && v != "" && !HasControl(env, v) then env.url(v) else None
    else if key == "src" then if tag == "img" then InlineImage(env, v) else None
    else if key == "alt" then if tag == "img" then Bounded(env, v, MAX_RUNES) else None
    else if key == "title" then Bounded(env, v, MAX_RUNES)
    else if key == "lang" then if SafeLanguage(v) then Some(Lower(env, v)) else None
    else if key == "dir" then OneOf(Lower(env, v), ["ltr", "rtl", "auto"])
    else if key == "rel" then if tag == "a" then SafeRel(env, v) else None
    else if key == "width" || key == "height" then if tag == "img" then BoundedInteger(env, v, 0, MAX_DIMENSION) else None
    else if key == "datetime" then if tag == "time" then Bounded(env, v, 100) else None
    else if key == "start" then if tag == "ol" then BoundedInteger(env, v, -MAX_SPAN, MAX_SPAN) else None
    else if key == "value" then if tag == "li" then BoundedInteger(env, v, -MAX_SPAN, MAX_SPAN) else None
    else if key == "colspan" || key == "rowspan" then
      if tag == "td" || tag == "th" then BoundedInteger(env, v, 1, MAX_SPAN) else None
    else if key == "scope" then if tag == "th" then OneOf(Lower(env, v), ["row", "col", "rowgroup", "colgroup"]) else None
    else if key == "reversed" then if tag == "ol" && v == "" then Some("") else None
    else None
  }

  function OneOf(v: string, choices: seq<string>): Option<string> {
    if v in choices then Some(v) else None
  }

  const KEYS: seq<string> := ["alt", "colspan", "datetime", "dir", "height", "href", "lang", "rel", "reversed", "rowspan",
    "scope", "src", "start", "title", "value", "width"]

  function Key(env: Env, a: Attribute): string {
    Lower(env, Trim(env, a.key))
  }

  // The value of the first attribute with the key; later ones are ignored.
  function First(env: Env, attrs: seq<Attribute>, key: string): Option<string> {
    if attrs == [] then None
    else if Key(env, attrs[0]) == key then Some(Trim(env, attrs[0].value))
    else First(env, attrs[1..], key)
  }

  // The validated value of a key, if the element gets that attribute.
  function ValueOf(env: Env, tag: string, attrs: seq<Attribute>, key: string): Option<string> {
    var v := First(env, attrs, key);
    if v.None? then None else Validate(env, tag, key, v.value)
  }

  function Collect(env: Env, tag: string, attrs: seq<Attribute>, keys: seq<string>): seq<Attribute>
    decreases |attrs|, |keys|
  {
    if keys == [] then []
    else
      var v, rest := ValueOf(env, tag, attrs, keys[0]), Collect(env, tag, attrs, keys[1..]);
      if v.Some? then [Attribute(keys[0], v.value)] + rest else rest
  }

  // The attributes of a clean element, in the order of their keys.
  function Attributes(env: Env, tag: string, attrs: seq<Attribute>): seq<Attribute> {
    Collect(env, tag, attrs, KEYS)
  }

  predicate KeepsElement(env: Env, tag: string, attrs: seq<Attribute>) {
    tag == "img" ==> ValueOf(env, tag, attrs, "src").Some?
  }

  // ------------------------------------------------- attributes are stable

  lemma ChoiceStays(env: Env, v: string, choices: seq<string>)
    requires Sound(env) && v in choices && forall i | 0 <= i < |choices| :: AllPlain(choices[i])
    ensures Trim(env, v) == v && OneOf(Lower(env, v), choices) == Some(v)
  {
    LowerPlain(env, v);
    TrimPlain(env, v);
  }

  // Values found in a clean attribute.
  lemma ValidateStays(env: Env, tag: string, key: string, v: string)
    requires Sound(env) && Trim(env, v) == v && Validate(env, tag, key, v).Some?
    ensures var w := Validate(env, tag, key, v).value; Trim(env, w) == w && Validate(env, tag, key, w) == Some(w)
  {
    if key == "src" {
      ImageStays(env, v);
    } else if key == "lang" || key == "dir" || key == "scope" {
      WordStays(env, tag, key, v);
    } else if key == "rel" {
      RelStays(env, v);
    } else if key == "width" || key == "height" {
      DimensionStays(env, tag, key, v);
    } else if key == "start" || key == "value" {
      NumberStays(env, tag, key, v);
    } else if key == "colspan" || key == "rowspan" {
      SpanStays(env, tag, key, v);
    }
  }

  lemma WordStays(env: Env, tag: string, key: string, v: string)
    requires Sound(env) && (key == "lang" || key == "dir" || key == "scope") && Validate(env, tag, key, v).Some?
    ensures var w := Validate(env, tag, key, v).value; Trim(env, w) == w && Validate(env, tag, key, w) == Some(w)
  {
    if key == "lang" {
      LanguageStays(env, v);
      TrimPlain(env, Lower(env, v));
    } else if key == "dir" {
      ChoiceStays(env, Lower(env, v), ["ltr", "rtl", "auto"]);
    } else {
      ChoiceStays(env, Lower(env, v), ["row", "col", "rowgroup", "colgroup"]);
    }
  }

  lemma DimensionStays(env: Env, tag: string, key: string, v: string)
    requires Sound(env) && (key == "width" || key == "height") && Validate(env, tag, key, v).Some?
    ensures var w := Validate(env, tag, key, v).value; Trim(env, w) == w && Validate(env, tag, key, w) == Some(w)
  {
    IntegerStays(env, v, 0, MAX_DIMENSION);
  }

  lemma NumberRule(env: Env, tag: string, key: string, v: string)
    requires key == "start" || key == "value"
    ensures Validate(env, tag, key, v) == if tag == (if key == "start" then "ol" else "li")
                                          then BoundedInteger(env, v, -MAX_SPAN, MAX_SPAN) else None
  {
  }

  lemma NumberStays(env: Env, tag: string, key: string, v: string)
    requires Sound(env) && (key == "start" || key == "value") && Validate(env, tag, key, v).Some?
    ensures var w := Validate(env, tag, key, v).value; Trim(env, w) == w && Validate(env, tag, key, w) == Some(w)
  {
    NumberRule(env, tag, key, v);
    IntegerStays(env, v, -MAX_SPAN, MAX_SPAN);
    NumberRule(env, tag, key, Validate(env, tag, key, v).value);
  }

  lemma SpanStays(env: Env, tag: string, key: string, v: string)
    requires Sound(env) && (key == "colspan" || key == "rowspan") && Validate(env, tag, key, v).Some?
    ensures var w := Validate(env, tag, key, v).value; Trim(env, w) == w && Validate(env, tag, key, w) == Some(w)
  {
    IntegerStays(env, v, 1, MAX_SPAN);
  }

  predicate KeysIncrease(attrs: seq<Attribute>) {
    forall i, j | 0 <= i < j < |attrs| :: Less(attrs[i].key, attrs[j].key)
  }

  ghost predicate StringsIncrease(keys: seq<string>) {
    forall i, j | 0 <= i < j < |keys| :: Less(keys[i], keys[j])
  }

  lemma {:induction false} StepsIncrease(keys: seq<string>)
    requires forall i | 0 <= i < |keys| - 1 :: Less(keys[i], keys[i + 1])
    ensures StringsIncrease(keys)
    decreases |keys|
  {
    if keys != [] {
      var front := keys[..|keys| - 1];
      forall i | 0 <= i < |front| - 1 ensures Less(front[i], front[i + 1]) { assert Less(keys[i], keys[i + 1]); }
      StepsIncrease(front);
      forall i | 0 <= i < |front|
        ensures Less(keys[i], keys[|keys| - 1])
      {
        assert Less(keys[|keys| - 2], keys[|keys| - 1]);
        if i < |keys| - 2 {
          assert Less(front[i], front[|front| - 1]);
          LessTransitive(keys[i], keys[|keys| - 2], keys[|keys| - 1]);
        }
      }
    }
  }

  // After a common beginning the next characters decide.
  lemma {:induction false} LessAt(a: string, b: string, n: nat)
    requires n < |a| && n < |b| && a[..n] == b[..n] && a[n] < b[n]
    ensures Less(a, b)
    decreases n
  {
    if n > 0 {
      assert a[0] == a[..n][0] == b[..n][0] == b[0];
      assert a[1..][..n - 1] == a[..n][1..] && b[1..][..n - 1] == b[..n][1..];
      LessAt(a[1..], b[1..], n - 1);
    }
  }

  lemma KeysSorted()
    ensures StringsIncrease(KEYS)
  {
    LessAt("alt", "colspan", 0);
    LessAt("colspan", "datetime", 0);
    LessAt("datetime", "dir", 1);
    LessAt("dir", "height", 0);
    LessAt("height", "href", 1);
    LessAt("href", "lang", 0);
    LessAt("lang", "rel", 0);
    LessAt("rel", "reversed", 2);
    LessAt("reversed", "rowspan", 1);
    LessAt("rowspan", "scope", 0);
    LessAt("scope", "src", 1);
    LessAt("src", "start", 1);
    LessAt("start", "title", 0);
    LessAt("title", "value", 0);
    LessAt("value", "width", 0);
    StepsIncrease(KEYS);
  }

  // Sorted by keys, and exactly the validated values.
  ghost predicate IsClean(env: Env, tag: string, attrs: seq<Attribute>, out: seq<Attribute>) {
    && KeysIncrease(out)
    && (forall i | 0 <= i < |out| :: ValueOf(env, tag, attrs, out[i].key) == Some(out[i].value))
    && (forall k :: ValueOf(env, tag, attrs, k).Some? ==> Attribute(k, ValueOf(env, tag, attrs, k).value) in out)
  }

  lemma {:induction false} Collected(env: Env, tag: string, attrs: seq<Attribute>, keys: seq<string>)
    requires StringsIncrease(keys)
    ensures var out := Collect(env, tag, attrs, keys);
            && KeysIncrease(out)
            && (forall i | 0 <= i < |out| :: out[i].key in keys && ValueOf(env, tag, attrs, out[i].key) == Some(out[i].value))
            && (forall k <- keys :: ValueOf(env, tag, attrs, k).Some? ==> Attribute(k, ValueOf(env, tag, attrs, k).value) in out)
    decreases |keys|
  {
    if keys != [] {
      var rest := Collect(env, tag, attrs, keys[1..]);
      assert forall i, j | 0 <= i < j < |keys[1..]| :: keys[1..][i] == keys[i + 1] && keys[1..][j] == keys[j + 1];
      Collected(env, tag, attrs, keys[1..]);
      forall i | 0 <= i < |rest|
        ensures Less(keys[0], rest[i].key)
      {
        var k :| 0 <= k < |keys[1..]| && keys[1..][k] == rest[i].key;
        assert keys[k + 1] == rest[i].key;
      }
      assert forall k <- keys :: k == keys[0] || k in keys[1..];
    }
  }

  lemma KnownKey(env: Env, tag: string, key: string, v: string)
    requires Validate(env, tag, key, v).Some?
    ensures key in KEYS
  {
    assert KEYS[0] == "alt" && KEYS[1] == "colspan" && KEYS[2] == "datetime" && KEYS[3] == "dir" && KEYS[4] == "height";
    assert KEYS[5] == "href" && KEYS[6] == "lang" && KEYS[7] == "rel" && KEYS[8] == "reversed" && KEYS[9] == "rowspan";
    assert KEYS[10] == "scope" && KEYS[11] == "src" && KEYS[12] == "start" && KEYS[13] == "title"
      && KEYS[14] == "value";
    assert KEYS[15] == "width";
  }

  lemma AttributesClean(env: Env, tag: string, attrs: seq<Attribute>)
    ensures IsClean(env, tag, attrs, Attributes(env, tag, attrs))
  {
    KeysSorted();
    Collected(env, tag, attrs, KEYS);
    forall k | ValueOf(env, tag, attrs, k).Some?
      ensures Attribute(k, ValueOf(env, tag, attrs, k).value) in Attributes(env, tag, attrs)
    {
      KnownKey(env, tag, k, First(env, attrs, k).value);
    }
  }

  lemma KeysOnce(attrs: seq<Attribute>, i: nat, j: nat)
    requires KeysIncrease(attrs) && i < |attrs| && j < |attrs| && attrs[i].key == attrs[j].key
    ensures i == j
  {
    LessIrreflexive(attrs[i].key);
  }

  lemma TailHasOthers(attrs: seq<Attribute>, a: Attribute)
    requires KeysIncrease(attrs) && attrs != []
    ensures a in attrs[1..] <==> a in attrs && a != attrs[0]
  {
    if a in attrs[1..] {
      var k :| 0 <= k < |attrs[1..]| && attrs[1..][k] == a;
      assert attrs[k + 1] == a;
      if a == attrs[0] { KeysOnce(attrs, 0, k + 1); }
    }
  }

  // Sorted attributes are determined by which there are.
  lemma {:induction false} SortedUnique(a: seq<Attribute>, b: seq<Attribute>)
    requires KeysIncrease(a) && KeysIncrease(b) && forall x :: x in a <==> x in b
    ensures a == b
    decreases |a|
  {
    assert b == [] || b[0] in b;
    if a != [] {
      assert a[0] in a && a[0] in b;
      assert b[0] in b && b[0] in a;
      var i :| 0 <= i < |b| && b[i] == a[0];
      var j :| 0 <= j < |a| && a[j] == b[0];
      if i > 0 && j > 0 { LessTotal(a[0].key, b[0].key); }
      assert a[0] == b[0];
      forall x ensures x in a[1..] <==> x in b[1..] {
        TailHasOthers(a, x);
        TailHasOthers(b, x);
      }
      SortedUnique(a[1..], b[1..]);
    }
  }

  lemma CleanUnique(env: Env, tag: string, attrs: seq<Attribute>, out: seq<Attribute>)
    requires IsClean(env, tag, attrs, out)
    ensures out == Attributes(env, tag, attrs)
  {
    var b := Attributes(env, tag, attrs);
    AttributesClean(env, tag, attrs);
    forall x ensures x in out <==> x in b {
      if x in out { assert ValueOf(env, tag, attrs, x.key) == Some(x.value); }
      if x in b { assert ValueOf(env, tag, attrs, x.key) == Some(x.value); }
    }
    SortedUnique(out, b);
  }

  // The first attribute with a key in a sorted list with plain keys is the one there.
  lemma {:induction false} FirstInClean(env: Env, out: seq<Attribute>, key: string)
    requires KeysIncrease(out) && forall i | 0 <= i < |out| :: Key(env, out[i]) == out[i].key
    ensures First(env, out, key).Some? <==> exists i :: 0 <= i < |out| && out[i].key == key
    ensures forall i | 0 <= i < |out| && out[i].key == key :: First(env, out, key) == Some(Trim(env, out[i].value))
    decreases |out|
  {
    if out != [] {
      FirstInClean(env, out[1..], key);
      forall i | 0 <= i < |out| && out[i].key == key
        ensures First(env, out, key) == Some(Trim(env, out[i].value))
      {
        if out[0].key == key { KeysOnce(out, 0, i); } else { assert out[1..][i - 1] == out[i]; }
      }
      if First(env, out, key).Some? && out[0].key != key {
        var i :| 0 <= i < |out[1..]| && out[1..][i].key == key;
        assert out[i + 1].key == key;
      }
    }
  }

  lemma KeysPlain(env: Env, key: string)
    requires Sound(env) && key in KEYS
    ensures Lower(env, Trim(env, key)) == key
  {
    assert AllPlain(key);
    TrimPlain(env, key);
    LowerPlain(env, key);
  }

  lemma ValueStays(env: Env, tag: string, attrs: seq<Attribute>, key: string)
    requires Sound(env)
    ensures ValueOf(env, tag, Attributes(env, tag, attrs), key) == ValueOf(env, tag, attrs, key)
  {
    var out := Attributes(env, tag, attrs);
    CleanKeys(env, tag, attrs);
    AttributesClean(env, tag, attrs);
    FirstInClean(env, out, key);
    var v := ValueOf(env, tag, attrs, key);
    if v.Some? {
      var i :| 0 <= i < |out| && out[i] == Attribute(key, v.value);
      FirstTrimmed(env, attrs, key);
      ValidateStays(env, tag, key, First(env, attrs, key).value);
    } else {
      forall i | 0 <= i < |out| ensures out[i].key != key {}
    }
  }

  lemma CleanKeys(env: Env, tag: string, attrs: seq<Attribute>)
    requires Sound(env)
    ensures var out := Attributes(env, tag, attrs);
            forall i | 0 <= i < |out| :: out[i].key in KEYS && Key(env, out[i]) == out[i].key
  {
    KeysSorted();
    Collected(env, tag, attrs, KEYS);
    var out := Attributes(env, tag, attrs);
    forall i | 0 <= i < |out| ensures Key(env, out[i]) == out[i].key { KeysPlain(env, out[i].key); }
  }

  lemma {:induction false} FirstTrimmed(env: Env, attrs: seq<Attribute>, key: string)
    requires First(env, attrs, key).Some?
    ensures Trim(env, First(env, attrs, key).value) == First(env, attrs, key).value
    decreases |attrs|
  {
    if Key(env, attrs[0]) == key { TrimTwice(env, attrs[0].value); } else { FirstTrimmed(env, attrs[1..], key); }
  }

  lemma {:induction false} CollectSame(env: Env, tag: string, a: seq<Attribute>, b: seq<Attribute>, keys: seq<string>)
    requires forall k :: ValueOf(env, tag, a, k) == ValueOf(env, tag, b, k)
    ensures Collect(env, tag, a, keys) == Collect(env, tag, b, keys)
    decreases |keys|
  {
    if keys != [] { CollectSame(env, tag, a, b, keys[1..]); }
  }

  lemma SameAttributes(env: Env, tag: string, a: seq<Attribute>, b: seq<Attribute>)
    requires forall k :: ValueOf(env, tag, a, k) == ValueOf(env, tag, b, k)
    ensures Attributes(env, tag, a) == Attributes(env, tag, b)
  {
    CollectSame(env, tag, a, b, KEYS);
  }

  // Clean attributes are clean already.
  lemma AttributesStay(env: Env, tag: string, attrs: seq<Attribute>)
    requires Sound(env)
    ensures Attributes(env, tag, Attributes(env, tag, attrs)) == Attributes(env, tag, attrs)
  {
    forall k
      ensures ValueOf(env, tag, Attributes(env, tag, attrs), k) == ValueOf(env, tag, attrs, k)
    {
      ValueStays(env, tag, attrs, k);
    }
    SameAttributes(env, tag, Attributes(env, tag, attrs), attrs);
  }

  lemma KeepStays(env: Env, tag: string, attrs: seq<Attribute>)
    requires Sound(env)
    ensures KeepsElement(env, tag, Attributes(env, tag, attrs)) == KeepsElement(env, tag, attrs)
  {
    ValueStays(env, tag, attrs, "src");
  }

  // -------------------------------------------- what attributes can say

  ghost predicate SmallImage(v: string) {
    exists media, d :: media in {"png", "jpeg", "webp"} && Base64.IsBytes(d) && 0 < |d| <= MAX_IMAGE && v == WrittenImage(media, d)
  }

  ghost predicate SomeInteger(v: string, min: int, max: int) {
    exists n :: min <= n <= max && v == Decimal.Format(n)
  }

  ghost predicate SomeRelations(v: string) {
    exists words :: words != [] && v == Join(words) && (forall i | 0 <= i < |words| :: words[i] in RELATIONS)
                    && forall i, j | 0 <= i < j < |words| :: words[i] != words[j]
  }

  predicate ShortText(env: Env, v: string, max: nat) {
    |v| <= max && !HasControl(env, v)
  }

  // What an attribute of clean output can be, said without the validation.
  ghost predicate Harmless(env: Env, tag: string, key: string, v: string) {
    || (key == "href" && tag == "a" && Accepted(env, v))
    || (key == "src" && tag == "img" && SmallImage(v))
    || (key == "alt" && tag == "img" && ShortText(env, v, 1000))
    || (key == "title" && ShortText(env, v, 1000))
    || (key == "datetime" && tag == "time" && ShortText(env, v, 100))
    || (key == "lang" && 0 < |v| <= 35 && forall i | 0 <= i < |v| :: Plain(v[i]) && LanguageChar(v[i]))
    || (key == "dir" && v in {"ltr", "rtl", "auto"})
    || (key == "rel" && tag == "a" && SomeRelations(v))
    || (key in {"width", "height"} && tag == "img" && SomeInteger(v, 0, 4096))
    || (key == "start" && tag == "ol" && SomeInteger(v, -1000, 1000))
    || (key == "value" && tag == "li" && SomeInteger(v, -1000, 1000))
    || (key in {"colspan", "rowspan"} && tag in {"td", "th"} && SomeInteger(v, 1, 1000))
    || (key == "scope" && tag == "th" && v in {"row", "col", "rowgroup", "colgroup"})
    || (key == "reversed" && tag == "ol" && v == "")
  }

  lemma ImageIsSmall(env: Env, v: string)
    requires InlineImage(env, v).Some?
    ensures SmallImage(InlineImage(env, v).value)
  {
    var (header, payload) := FirstComma(Trim(env, v)).value;
    DecodedBytes(payload);
    assert InlineImage(env, v).value == WrittenImage(MediaType(Lower(env, header)).value, DecodePayload(payload).value);
  }

  lemma RelationsAreSome(env: Env, v: string)
    requires SafeRel(env, v).Some?
    ensures SomeRelations(SafeRel(env, v).value)
  {
    var words := Words(env, Lower(env, v));
    var d := Distinct(words);
    DistinctWords(words);
    forall i | 0 <= i < |d| ensures d[i] in RELATIONS { assert d[i] in words; }
    assert SafeRel(env, v).value == Join(d);
  }

  lemma NumberIsSome(env: Env, v: string, min: int, max: int)
    requires BoundedInteger(env, v, min, max).Some?
    ensures SomeInteger(BoundedInteger(env, v, min, max).value, min, max)
  {
    assert BoundedInteger(env, v, min, max).value == Decimal.Format(Decimal.Parse(v).value);
  }

  lemma ValidIsHarmless(env: Env, tag: string, key: string, v: string)
    requires Sound(env) && Validate(env, tag, key, v).Some?
    ensures Harmless(env, tag, key, Validate(env, tag, key, v).value)
  {
    if key == "src" {
      ImageIsSmall(env, v);
    } else if key == "rel" {
      RelationsAreSome(env, v);
    } else if key == "lang" {
      LanguageStays(env, v);
    } else if key == "width" || key == "height" {
      NumberIsSome(env, v, 0, MAX_DIMENSION);
    } else if key == "start" || key == "value" {
      NumberIsSome(env, v, -MAX_SPAN, MAX_SPAN);
    } else if key == "colspan" || key == "rowspan" {
      NumberIsSome(env, v, 1, MAX_SPAN);
    }
  }

  // Every attribute that is kept is harmless.
  lemma AttributesHarmless(env: Env, tag: string, attrs: seq<Attribute>)
    requires Sound(env)
    ensures var out := Attributes(env, tag, attrs);
            forall i | 0 <= i < |out| :: Harmless(env, tag, out[i].key, out[i].value)
  {
    var out := Attributes(env, tag, attrs);
    AttributesClean(env, tag, attrs);
    forall i | 0 <= i < |out|
      ensures Harmless(env, tag, out[i].key, out[i].value)
    {
      ValidIsHarmless(env, tag, out[i].key, First(env, attrs, out[i].key).value);
    }
  }

  // ----------------------------------------------- the loop in the source

  lemma InsertedOrder(sorted: seq<Attribute>, a: Attribute, k: nat)
    requires KeysIncrease(sorted) && k <= |sorted|
    requires (forall i | 0 <= i < k :: Less(sorted[i].key, a.key))
             && forall i | k <= i < |sorted| :: Less(a.key, sorted[i].key)
    ensures KeysIncrease(sorted[..k] + [a] + sorted[k..])
  {
  }

  lemma InsertedElements(sorted: seq<Attribute>, a: Attribute, k: nat)
    requires k <= |sorted|
    ensures forall x :: x in sorted[..k] + [a] + sorted[k..] <==> x in sorted || x == a
  {
    assert sorted == sorted[..k] + sorted[k..];
  }

  lemma RestGreater(sorted: seq<Attribute>, a: Attribute, k: nat, i: nat)
    requires KeysIncrease(sorted) && k <= i < |sorted| && !Less(sorted[k].key, a.key) && sorted[k].key != a.key
    ensures Less(a.key, sorted[i].key)
  {
    LessTotal(a.key, sorted[k].key);
    if k < i { LessTransitive(a.key, sorted[k].key, sorted[i].key); }
  }

  method Insert(sorted: seq<Attribute>, a: Attribute) returns (out: seq<Attribute>)
    requires KeysIncrease(sorted) && forall i | 0 <= i < |sorted| :: sorted[i].key != a.key
    ensures KeysIncrease(out) && forall x :: x in out <==> x in sorted || x == a
  {
    var k := 0;
    while k < |sorted| && Less(sorted[k].key, a.key)
      invariant k <= |sorted| && forall i | 0 <= i < k :: Less(sorted[i].key, a.key)
    {
      k := k + 1;
    }
    forall i | k <= i < |sorted| ensures Less(a.key, sorted[i].key) { RestGreater(sorted, a, k, i); }
    InsertedOrder(sorted, a, k);
    InsertedElements(sorted, a, k);
    return sorted[..k] + [a] + sorted[k..];
  }

  method Sort(attrs: seq<Attribute>) returns (out: seq<Attribute>)
    requires forall i, j | 0 <= i < j < |attrs| :: attrs[i].key != attrs[j].key
    ensures KeysIncrease(out) && forall x :: x in out <==> x in attrs
  {
    out := [];
    for i := 0 to |attrs|
      invariant KeysIncrease(out) && forall x :: x in out <==> x in attrs[..i]
    {
      assert attrs[..i + 1] == attrs[..i] + [attrs[i]];
      forall j | 0 <= j < |out| ensures out[j].key != attrs[i].key {
        assert out[j] in out;
        var k :| 0 <= k < i && attrs[k] == out[j];
      }
      out := Insert(out, attrs[i]);
    }
    assert attrs[..|attrs|] == attrs;
  }

  // What the loop has collected after the attributes so far.
  ghost predicate CollectedSoFar(env: Env, tag: string, attrs: seq<Attribute>, clean: seq<Attribute>) {
    && (forall i | 0 <= i < |clean| :: ValueOf(env, tag, attrs, clean[i].key) == Some(clean[i].value))
    && (forall k :: ValueOf(env, tag, attrs, k).Some? ==> Attribute(k, ValueOf(env, tag, attrs, k).value) in clean)
    && (forall i, j | 0 <= i < j < |clean| :: clean[i].key != clean[j].key)
  }

  lemma {:induction false} FirstOfMore(env: Env, attrs: seq<Attribute>, a: Attribute, key: string)
    ensures First(env, attrs + [a], key) ==
      if First(env, attrs, key).Some? then First(env, attrs, key)
      else if Key(env, a) == key then Some(Trim(env, a.value)) else None
    decreases |attrs|
  {
    if attrs == [] {
      assert attrs + [a] == [a] && [a][1..] == [];
    } else {
      assert (attrs + [a])[1..] == attrs[1..] + [a];
      FirstOfMore(env, attrs[1..], a, key);
    }
  }

  lemma SameCollected(env: Env, tag: string, attrs: seq<Attribute>, a: Attribute, clean: seq<Attribute>)
    requires CollectedSoFar(env, tag, attrs, clean)
    requires First(env, attrs, Key(env, a)).Some? || Validate(env, tag, Key(env, a), Trim(env, a.value)).None?
    ensures CollectedSoFar(env, tag, attrs + [a], clean)
  {
    forall k ensures ValueOf(env, tag, attrs + [a], k) == ValueOf(env, tag, attrs, k) { FirstOfMore(env, attrs, a, k); }
  }

  lemma OneCollected(env: Env, tag: string, attrs: seq<Attribute>, a: Attribute, clean: seq<Attribute>, w: string)
    requires CollectedSoFar(env, tag, attrs, clean) && First(env, attrs, Key(env, a)).None?
    requires Validate(env, tag, Key(env, a), Trim(env, a.value)) == Some(w)
    ensures CollectedSoFar(env, tag, attrs + [a], clean + [Attribute(Key(env, a), w)])
  {
    forall k
      ensures ValueOf(env, tag, attrs + [a], k) == if k == Key(env, a) then Some(w) else ValueOf(env, tag, attrs, k)
    {
      FirstOfMore(env, attrs, a, k);
    }
    forall k | ValueOf(env, tag, attrs + [a], k).Some?
      ensures Attribute(k, ValueOf(env, tag, attrs + [a], k).value) in clean + [Attribute(Key(env, a), w)]
    {
    }
  }

  // Goes through the attributes once, keeps the first of each key if it is
  // valid, and sorts what it has kept.
  method SanitizeAttributes(env: Env, tag: string, attrs: seq<Attribute>) returns (out: seq<Attribute>, keep: bool)
    ensures keep <==> KeepsElement(env, tag, attrs)
    ensures keep ==> out == Attributes(env, tag, attrs)
  {
    var clean: seq<Attribute>, seen: set<string> := [], {};
    for i := 0 to |attrs|
      invariant CollectedSoFar(env, tag, attrs[..i], clean)
      invariant forall k :: k in seen <==> k != "" && First(env, attrs[..i], k).Some?
    {
      assert attrs[..i + 1] == attrs[..i] + [attrs[i]];
      var key := Key(env, attrs[i]);
      forall k { FirstOfMore(env, attrs[..i], attrs[i], k); }
      if key == "" || key in seen {
        SameCollected(env, tag, attrs[..i], attrs[i], clean);
      } else {
        seen := seen + {key};
        var value := Validate(env, tag, key, Trim(env, attrs[i].value));
        if value.Some? {
          OneCollected(env, tag, attrs[..i], attrs[i], clean, value.value);
          clean := clean + [Attribute(key, value.value)];
        } else {
          SameCollected(env, tag, attrs[..i], attrs[i], clean);
        }
      }
    }
    assert attrs[..|attrs|] == attrs;
    keep := tag != "img" || exists a <- clean :: a.key == "src";
    if ValueOf(env, tag, attrs, "src").Some? {
      assert Attribute("src", ValueOf(env, tag, attrs, "src").value) in clean;
    }
    out := Sort(clean);
    SortedIsClean(env, tag, attrs, clean, out);
  }

  lemma SortedIsClean(env: Env, tag: string, attrs: seq<Attribute>, clean: seq<Attribute>, out: seq<Attribute>)
    requires CollectedSoFar(env, tag, attrs, clean) && KeysIncrease(out) && forall x :: x in out <==> x in clean
    ensures out == Attributes(env, tag, attrs)
  {
    forall i | 0 <= i < |out|
      ensures ValueOf(env, tag, attrs, out[i].key) == Some(out[i].value)
    {
      assert out[i] in out;
      var k :| 0 <= k < |clean| && clean[k] == out[i];
    }
    CleanUnique(env, tag, attrs, out);
  }

  // ------------------------------------------------------------- the tree

  function SanitizeNode(env: Env, n: Node): seq<Node>
    decreases n
  {
    match n
    case TextNode(data) => [n]
    case Other(_) => []
    case Element(name, namespace, attrs, children) =>
      var tag := Lower(env, name);
      if namespace != "" || tag in DROPPED then []
      else if tag !in ALLOWED then SanitizeNodes(env, children)
      else if !KeepsElement(env, tag, attrs) then []
      else [Element(tag, "", Attributes(env, tag, attrs), if tag in VOID then [] else SanitizeNodes(env, children))]
  }

  function SanitizeNodes(env: Env, ns: seq<Node>): seq<Node>
    decreases ns
  {
    if ns == [] then [] else SanitizeNode(env, ns[0]) + SanitizeNodes(env, ns[1..])
  }

  // Only allowed elements in no namespace, with sorted, unique and validated
  // attributes, a source on every image, and nothing inside void elements.
  ghost predicate CleanNode(env: Env, n: Node)
    decreases n
  {
    match n
    case TextNode(_) => true
    case Other(_) => false
    case Element(tag, namespace, attrs, children) =>
      && namespace == "" && Lower(env, tag) == tag && tag in ALLOWED && tag !in DROPPED
      && KeysIncrease(attrs) && Attributes(env, tag, attrs) == attrs && KeepsElement(env, tag, attrs)
      && (tag in VOID ==> children == [])
      && CleanNodes(env, children)
  }

  ghost predicate CleanNodes(env: Env, ns: seq<Node>)
    decreases ns
  {
    ns == [] || (CleanNode(env, ns[0]) && CleanNodes(env, ns[1..]))
  }

  lemma {:induction false} CleanJoin(env: Env, a: seq<Node>, b: seq<Node>)
    requires CleanNodes(env, a) && CleanNodes(env, b)
    ensures CleanNodes(env, a + b)
    decreases |a|
  {
    if a == [] {
      assert a + b == b;
    } else {
      assert (a + b)[1..] == a[1..] + b;
      CleanJoin(env, a[1..], b);
    }
  }

  lemma ElementClean(env: Env, tag: string, attrs: seq<Attribute>, children: seq<Node>)
    requires Sound(env) && Lower(env, tag) == tag && tag in ALLOWED && tag !in DROPPED && KeepsElement(env, tag, attrs)
    requires CleanNodes(env, children) && (tag in VOID ==> children == [])
    ensures CleanNode(env, Element(tag, "", Attributes(env, tag, attrs), children))
  {
    AttributesStay(env, tag, attrs);
    KeepStays(env, tag, attrs);
    AttributesClean(env, tag, attrs);
  }

  lemma SingleClean(env: Env, n: Node)
    requires CleanNode(env, n)
    ensures CleanNodes(env, [n])
  {
    assert [n][1..] == [];
  }

  // Whatever the input, the output is clean.
  lemma {:induction false} NodeBecomesClean(env: Env, n: Node)
    requires Sound(env)
    ensures CleanNodes(env, SanitizeNode(env, n))
    decreases n
  {
    if n.TextNode? {
      SingleClean(env, n);
    } else if n.Element? {
      var tag := Lower(env, n.tag);
      NodesBecomeClean(env, n.children);
      LowerTwice(env, n.tag);
      if n.namespace == "" && tag !in DROPPED && tag in ALLOWED && KeepsElement(env, tag, n.attrs) {
        var inner := if tag in VOID then [] else SanitizeNodes(env, n.children);
        ElementClean(env, tag, n.attrs, inner);
        SingleClean(env, Element(tag, "", Attributes(env, tag, n.attrs), inner));
      }
    }
  }

  lemma {:induction false} NodesBecomeClean(env: Env, ns: seq<Node>)
    requires Sound(env)
    ensures CleanNodes(env, SanitizeNodes(env, ns))
    decreases ns
  {
    if ns != [] {
      NodeBecomesClean(env, ns[0]);
      NodesBecomeClean(env, ns[1..]);
      CleanJoin(env, SanitizeNode(env, ns[0]), SanitizeNodes(env, ns[1..]));
    }
  }

  lemma {:induction false} CleanNodeStays(env: Env, n: Node)
    requires CleanNode(env, n)
    ensures SanitizeNode(env, n) == [n]
    decreases n
  {
    if n.Element? { CleanNodesStay(env, n.children); }
  }

  lemma {:induction false} CleanNodesStay(env: Env, ns: seq<Node>)
    requires CleanNodes(env, ns)
    ensures SanitizeNodes(env, ns) == ns
    decreases ns
  {
    if ns != [] {
      CleanNodeStays(env, ns[0]);
      CleanNodesStay(env, ns[1..]);
    }
  }

  // Sanitizing what was sanitized changes nothing.
  lemma SanitizeTwice(env: Env, ns: seq<Node>)
    requires Sound(env)
    ensures SanitizeNodes(env, SanitizeNodes(env, ns)) == SanitizeNodes(env, ns)
  {
    NodesBecomeClean(env, ns);
    CleanNodesStay(env, SanitizeNodes(env, ns));
  }

  // ------------------------------------------------- what is left as it is

  lemma NumberIsKept(env: Env, v: string, min: int, max: int)
    requires Sound(env) && SomeInteger(v, min, max) && Decimal.MIN64 <= min && max <= Decimal.MAX64
    ensures BoundedInteger(env, v, min, max) == Some(v)
  {
    var n :| min <= n <= max && v == Decimal.Format(n);
    Decimal.FormatParses(n);
    FormatPlain(n);
    TrimPlain(env, v);
  }

  lemma RelationsAreKept(env: Env, v: string)
    requires Sound(env) && SomeRelations(v)
    ensures SafeRel(env, v) == Some(v)
  {
    var words :| words != [] && v == Join(words) && (forall i | 0 <= i < |words| :: words[i] in RELATIONS)
                 && forall i, j | 0 <= i < j < |words| :: words[i] != words[j];
    JoinedRelations(env, words);
  }

  lemma ImageIsKept(env: Env, v: string)
    requires Sound(env) && SmallImage(v)
    ensures InlineImage(env, v) == Some(v)
  {
    var media, d :| media in {"png", "jpeg", "webp"} && Base64.IsBytes(d) && 0 < |d| <= MAX_IMAGE && v == WrittenImage(media, d);
    WrittenImageStays(env, media, d);
  }

  lemma WordIsKept(env: Env, v: string, choices: set<string>)
    requires Sound(env) && v in choices && forall c <- choices :: AllPlain(c)
    ensures Lower(env, v) == v
  {
    LowerPlain(env, v);
  }

  // A harmless value is accepted, and kept as it is.
  lemma HarmlessIsKept(env: Env, tag: string, key: string, v: string)
    requires Sound(env) && Harmless(env, tag, key, v)
    ensures Validate(env, tag, key, v) == Some(v)
  {
    if key == "src" {
      ImageIsKept(env, v);
    } else if key == "rel" {
      RelationsAreKept(env, v);
    } else if key == "lang" {
      LowerPlain(env, v);
    } else if key == "dir" {
      WordIsKept(env, v, {"ltr", "rtl", "auto"});
    } else if key == "scope" {
      WordIsKept(env, v, {"row", "col", "rowgroup", "colgroup"});
    } else if key == "width" || key == "height" {
      NumberIsKept(env, v, 0, 4096);
    } else if key == "start" || key == "value" {
      NumberIsKept(env, v, -1000, 1000);
    } else if key == "colspan" || key == "rowspan" {
      NumberIsKept(env, v, 1, 1000);
    }
  }

  // Sorted attributes with harmless values.
  ghost predicate HarmlessAttributes(env: Env, tag: string, attrs: seq<Attribute>) {
    && KeysIncrease(attrs)
    && forall i | 0 <= i < |attrs| ::
         Harmless(env, tag, attrs[i].key, attrs[i].value) && Trim(env, attrs[i].value) == attrs[i].value
  }

  lemma HarmlessKeys(env: Env, tag: string, attrs: seq<Attribute>)
    requires Sound(env) && HarmlessAttributes(env, tag, attrs)
    ensures forall i | 0 <= i < |attrs| :: Key(env, attrs[i]) == attrs[i].key
    ensures forall i | 0 <= i < |attrs| :: Validate(env, tag, attrs[i].key, attrs[i].value) == Some(attrs[i].value)
  {
    forall i | 0 <= i < |attrs|
      ensures Key(env, attrs[i]) == attrs[i].key
              && Validate(env, tag, attrs[i].key, attrs[i].value) == Some(attrs[i].value)
    {
      HarmlessIsKept(env, tag, attrs[i].key, attrs[i].value);
      KnownKey(env, tag, attrs[i].key, attrs[i].value);
      KeysPlain(env, attrs[i].key);
    }
  }

  lemma HarmlessAttributesStay(env: Env, tag: string, attrs: seq<Attribute>)
    requires Sound(env) && HarmlessAttributes(env, tag, attrs)
    ensures Attributes(env, tag, attrs) == attrs
  {
    HarmlessKeys(env, tag, attrs);
    forall i | 0 <= i < |attrs| ensures ValueOf(env, tag, attrs, attrs[i].key) == Some(attrs[i].value) {
      FirstInClean(env, attrs, attrs[i].key);
    }
    forall k | ValueOf(env, tag, attrs, k).Some?
      ensures Attribute(k, ValueOf(env, tag, attrs, k).value) in attrs
    {
      FirstInClean(env, attrs, k);
      var i :| 0 <= i < |attrs| && attrs[i].key == k;
      assert attrs[i] in attrs;
    }
    CleanUnique(env, tag, attrs, attrs);
  }

  lemma KeptAttributesAreHarmless(env: Env, tag: string, attrs: seq<Attribute>)
    requires Sound(env)
    ensures HarmlessAttributes(env, tag, Attributes(env, tag, attrs))
  {
    var out := Attributes(env, tag, attrs);
    AttributesHarmless(env, tag, attrs);
    AttributesClean(env, tag, attrs);
    forall i | 0 <= i < |out| ensures Trim(env, out[i].value) == out[i].value {
      FirstTrimmed(env, attrs, out[i].key);
      ValidateStays(env, tag, out[i].key, First(env, attrs, out[i].key).value);
    }
  }

  // Text and allowed elements with harmless attributes, images with a source,
  // nothing inside void elements.
  ghost predicate HarmlessNode(env: Env, n: Node)
    decreases n
  {
    match n
    case TextNode(_) => true
    case Other(_) => false
    case Element(tag, namespace, attrs, children) =>
      && namespace == "" && Lower(env, tag) == tag && tag in ALLOWED && tag !in DROPPED
      && HarmlessAttributes(env, tag, attrs)
      && (tag == "img" ==> exists i :: 0 <= i < |attrs| && attrs[i].key == "src")
      && (tag in VOID ==> children == [])
      && HarmlessNodes(env, children)
  }

  ghost predicate HarmlessNodes(env: Env, ns: seq<Node>)
    decreases ns
  {
    ns == [] || (HarmlessNode(env, ns[0]) && HarmlessNodes(env, ns[1..]))
  }

  lemma SourceIsKept(env: Env, tag: string, attrs: seq<Attribute>)
    requires Sound(env) && HarmlessAttributes(env, tag, attrs)
    ensures ValueOf(env, tag, attrs, "src").Some? <==> exists i :: 0 <= i < |attrs| && attrs[i].key == "src"
  {
    HarmlessKeys(env, tag, attrs);
    FirstInClean(env, attrs, "src");
  }

  lemma {:induction false} CleanIsHarmless(env: Env, n: Node)
    requires Sound(env)
    ensures CleanNode(env, n) <==> HarmlessNode(env, n)
    decreases n
  {
    if n.Element? {
      CleanAreHarmless(env, n.children);
      if HarmlessAttributes(env, n.tag, n.attrs) {
        HarmlessAttributesStay(env, n.tag, n.attrs);
        SourceIsKept(env, n.tag, n.attrs);
      }
      if Attributes(env, n.tag, n.attrs) == n.attrs { KeptAttributesAreHarmless(env, n.tag, n.attrs); }
    }
  }

  lemma {:induction false} CleanAreHarmless(env: Env, ns: seq<Node>)
    requires Sound(env)
    ensures CleanNodes(env, ns) <==> HarmlessNodes(env, ns)
    decreases ns
  {
    if ns != [] {
      CleanIsHarmless(env, ns[0]);
      CleanAreHarmless(env, ns[1..]);
    }
  }

  // The documents the sanitizer leaves as they are, are exactly the harmless
  // ones; and whatever it is given, a harmless one comes out.
  lemma UnchangedExactly(env: Env, ns: seq<Node>)
    requires Sound(env)
    ensures SanitizeNodes(env, ns) == ns <==> HarmlessNodes(env, ns)
    ensures HarmlessNodes(env, SanitizeNodes(env, ns))
  {
    NodesBecomeClean(env, ns);
    CleanAreHarmless(env, SanitizeNodes(env, ns));
    CleanAreHarmless(env, ns);
    if HarmlessNodes(env, ns) { CleanNodesStay(env, ns); }
  }

  // ------------------------------------------------------------- the text

  // The subtrees whose text is lost.
  predicate Hides(env: Env, n: Node) {
    match n
    case TextNode(_) => false
    case Other(_) => true
    case Element(name, namespace, attrs, _) =>
      var tag := Lower(env, name);
      namespace != "" || tag in DROPPED || tag in VOID || (tag in ALLOWED && !KeepsElement(env, tag, attrs))
  }

  // The text leaves in document order, but for those under a hiding node.
  function NodeLeaves(env: Env, n: Node, hidden: bool): seq<string>
    decreases n
  {
    if n.TextNode? then if hidden then [] else [n.data] else Leaves(env, n.children, hidden || Hides(env, n))
  }

  function Leaves(env: Env, ns: seq<Node>, hidden: bool): seq<string>
    decreases ns
  {
    if ns == [] then [] else NodeLeaves(env, ns[0], hidden) + Leaves(env, ns[1..], hidden)
  }

  lemma {:induction false} HiddenLeaves(env: Env, ns: seq<Node>)
    ensures Leaves(env, ns, true) == []
    decreases ns
  {
    if ns != [] {
      if !ns[0].TextNode? { HiddenLeaves(env, ns[0].children); }
      HiddenLeaves(env, ns[1..]);
    }
  }

  lemma {:induction false} LeavesJoin(env: Env, a: seq<Node>, b: seq<Node>, hidden: bool)
    ensures Leaves(env, a + b, hidden) == Leaves(env, a, hidden) + Leaves(env, b, hidden)
    decreases |a|
  {
    if a == [] {
      assert a + b == b;
    } else {
      assert (a + b)[1..] == a[1..] + b && (a + b)[0] == a[0];
      LeavesJoin(env, a[1..], b, hidden);
    }
  }

  lemma VoidAllowed(tag: string)
    requires tag in VOID
    ensures tag in ALLOWED && tag !in DROPPED
  {
  }

  lemma {:induction false} NodeKeepsText(env: Env, n: Node)
    requires Sound(env)
    ensures Leaves(env, SanitizeNode(env, n), false) == Leaves(env, [n], false)
    decreases n
  {
    assert [n][1..] == [];
    if n.Element? {
      var tag, out := Lower(env, n.tag), SanitizeNode(env, n);
      HiddenLeaves(env, n.children);
      NodesKeepText(env, n.children);
      if tag in VOID { VoidAllowed(tag); }
      if n.namespace == "" && tag !in DROPPED && tag in ALLOWED && KeepsElement(env, tag, n.attrs) {
        NodeBecomesClean(env, n);
        assert out[1..] == [];
        if tag in VOID { HiddenLeaves(env, out[0].children); } else { assert !Hides(env, out[0]); }
      }
    } else if n.Other? {
      HiddenLeaves(env, n.children);
    }
  }

  // The text of the output is the text of the input without the subtrees that
  // are dropped, of a foreign namespace, under a void element or an image
  // without a source, in the same order.
  lemma {:induction false} NodesKeepText(env: Env, ns: seq<Node>)
    requires Sound(env)
    ensures Leaves(env, SanitizeNodes(env, ns), false) == Leaves(env, ns, false)
    decreases ns
  {
    if ns != [] {
      NodeKeepsText(env, ns[0]);
      NodesKeepText(env, ns[1..]);
      LeavesJoin(env, SanitizeNode(env, ns[0]), SanitizeNodes(env, ns[1..]), false);
      LeavesJoin(env, [ns[0]], ns[1..], false);
      assert ns == [ns[0]] + ns[1..];
    }
  }

  // ----------------------------------------------------------- the markup

  // A document as it is written: text, and the beginnings and ends of elements.
  datatype Mark = Data(text: string) | Open(tag: string, attrs: seq<Attribute>) | Shut(tag: string)

  function Written(ns: seq<Node>): seq<Mark>
    decreases ns
  {
    if ns == [] then [] else WrittenNode(ns[0]) + Written(ns[1..])
  }

  function WrittenNode(n: Node): seq<Mark>
    decreases n
  {
    match n
    case TextNode(data) => [Data(data)]
    case Element(tag, _, attrs, children) => [Open(tag, attrs)] + Written(children) + [Shut(tag)]
    case Other(children) => Written(children)
  }

  // The marks of the input that are to be kept: all text but under hiding nodes,
  // and there the allowed elements, in lower case and with their attributes
  // validated; of other elements only what they contain.
  function Kept(env: Env, ns: seq<Node>): seq<Mark>
    decreases ns
  {
    if ns == [] then [] else KeptNode(env, ns[0]) + Kept(env, ns[1..])
  }

  function KeptNode(env: Env, n: Node): seq<Mark>
    decreases n
  {
    match n
    case TextNode(data) => [Data(data)]
    case Other(_) => []
    case Element(name, _, attrs, children) =>
      var tag := Lower(env, name);
      var inner := if Hides(env, n) then [] else Kept(env, children);
      if Shown(env, n) then [Open(tag, Attributes(env, tag, attrs))] + inner + [Shut(tag)] else inner
  }

  // An element of which tag and attributes are kept.
  predicate Shown(env: Env, n: Node)
    requires n.Element?
  {
    var tag := Lower(env, n.tag);
    && n.namespace == "" && tag in ALLOWED && tag !in DROPPED
    && (tag == "img" ==> ValueOf(env, tag, n.attrs, "src").Some?)
  }

  lemma {:induction false} WrittenJoin(a: seq<Node>, b: seq<Node>)
    ensures Written(a + b) == Written(a) + Written(b)
    decreases |a|
  {
    if a == [] {
      assert a + b == b;
    } else {
      assert (a + b)[1..] == a[1..] + b && (a + b)[0] == a[0];
      WrittenJoin(a[1..], b);
      assert Written(a + b) == WrittenNode(a[0]) + (Written(a[1..]) + Written(b));
    }
  }

  lemma {:induction false} NodeKeepsMarkup(env: Env, n: Node)
    ensures Written(SanitizeNode(env, n)) == KeptNode(env, n)
    decreases n
  {
    var out := SanitizeNode(env, n);
    if out != [] && |out| == 1 { assert out[1..] == []; }
    if n.Element? {
      NodesKeepMarkup(env, n.children);
      var tag := Lower(env, n.tag);
      if tag in VOID { VoidAllowed(tag); }
      if Shown(env, n) { assert [out[0]][1..] == [] && out == [out[0]]; }
    }
  }

  // Written out, the output is exactly what is to be kept of the input.
  lemma {:induction false} NodesKeepMarkup(env: Env, ns: seq<Node>)
    ensures Written(SanitizeNodes(env, ns)) == Kept(env, ns)
    decreases ns
  {
    if ns != [] {
      NodeKeepsMarkup(env, ns[0]);
      NodesKeepMarkup(env, ns[1..]);
      WrittenJoin(SanitizeNode(env, ns[0]), SanitizeNodes(env, ns[1..]));
    }
  }

  predicate Visible(env: Env, s: string) {
    exists i | 0 <= i < |s| :: !env.space(s[i]) && !env.invisible(s[i])
  }

  predicate HasSemanticText(env: Env, ns: seq<Node>)
    decreases ns
  {
    ns != [] &&
      (|| (ns[0].TextNode? && Visible(env, ns[0].data))
       || (!ns[0].TextNode? && HasSemanticText(env, ns[0].children))
       || HasSemanticText(env, ns[1..]))
  }

  predicate AnyVisible(env: Env, texts: seq<string>) {
    exists i | 0 <= i < |texts| :: Visible(env, texts[i])
  }

  lemma VisibleJoin(env: Env, a: seq<string>, b: seq<string>)
    ensures AnyVisible(env, a + b) <==> AnyVisible(env, a) || AnyVisible(env, b)
  {
    assert forall i | 0 <= i < |a| :: (a + b)[i] == a[i];
    assert forall i | 0 <= i < |b| :: (a + b)[|a| + i] == b[i];
  }

  lemma CleanHidesNothing(env: Env, n: Node)
    requires CleanNode(env, n) && n.Element?
    ensures Leaves(env, n.children, Hides(env, n)) == Leaves(env, n.children, false)
  {
  }

  // Clean trees hide nothing, so that what is looked through is all their text.
  lemma {:induction false} SemanticText(env: Env, ns: seq<Node>)
    requires CleanNodes(env, ns)
    ensures HasSemanticText(env, ns) <==> AnyVisible(env, Leaves(env, ns, false))
    decreases ns
  {
    if ns != [] {
      var n := ns[0];
      SemanticText(env, ns[1..]);
      if n.TextNode? {
        VisibleJoin(env, [n.data], Leaves(env, ns[1..], false));
        assert AnyVisible(env, [n.data]) <==> Visible(env, [n.data][0]);
      } else {
        SemanticText(env, n.children);
        CleanHidesNothing(env, n);
        VisibleJoin(env, Leaves(env, n.children, false), Leaves(env, ns[1..], false));
      }
    }
  }

  // Parsed input is accepted exactly if some of its text that is kept is visible.
  lemma AcceptedExactly(env: Env, ns: seq<Node>)
    requires Sound(env)
    ensures HasSemanticText(env, SanitizeNodes(env, ns)) <==> AnyVisible(env, Leaves(env, ns, false))
  {
    NodesBecomeClean(env, ns);
    NodesKeepText(env, ns);
    SemanticText(env, SanitizeNodes(env, ns));
  }
}
