/** The token substitution of src/extension.ts:
      text.replace(/#\{(.*?)\}#/g, (match, key) => replacements[key] || match)
    A token is `#{`, a key of any characters except line terminators, and the
    FIRST following `}#`. A global regex scan takes matches left to right,
    starting each at the leftmost position where one exists and resuming just
    after the consumed `}#`; the replacer is a function, so its result is
    inserted literally and never rescanned. */
module TokenReplace {
  import opened Results
  import opened JsStrings

  /** The full text of a token with key `key`, delimiters included. */
  function Wrap(key: string): (w: string)
    ensures |w| == |key| + 4
  {
    "#{" + key + "}#"
  }

  /** The closing delimiter `}#` starts at index `i` of `s`. */
  predicate CloserAt(s: string, i: int) {
    0 <= i && i + 1 < |s| && s[i] == '}' && s[i + 1] == '#'
  }

  /** No line terminator in `t[i..q]`: the lazy `.*?` can stretch over it. */
  ghost predicate Dotted(t: string, i: nat, q: nat)
    requires i <= q <= |t|
  {
    forall j :: i <= j < q ==> !IsLineTerminator(t[j])
  }

  /** What the group `(.*?)` can capture when the match ends at the first `}#`:
      no line terminator, and no `}#` inside the key. */
  ghost predicate ValidKey(key: string) {
    && Dotted(key, 0, |key|)
    && forall i :: !CloserAt(key, i)
  }

  /** The regex matches at the start of `t` with capture `key`. */
  ghost predicate TokenAt(t: string, key: string) {
    ValidKey(key) && Wrap(key) <= t
  }

  /** No match of the regex starts anywhere in `t`. */
  ghost predicate TokenFree(t: string) {
    forall p, k :: 0 <= p <= |t| ==> !TokenAt(t[p..], k)
  }

  /** The lazy search: the index of the first `}#` at or after `i`, provided
      no line terminator comes first. */
  function FindCloser(t: string, i: nat): (r: Option<nat>)
    requires i <= |t|
    decreases |t| - i
    ensures r.Some? ==> i <= r.value && CloserAt(t, r.value) && Dotted(t, i, r.value)
                        && forall j :: i <= j < r.value ==> !CloserAt(t, j)
    ensures r.None? ==> forall q :: i <= q && CloserAt(t, q) ==> !Dotted(t, i, q)
  {
    if i + 1 >= |t| then None
    else if CloserAt(t, i) then Some(i)
    else if IsLineTerminator(t[i]) then None
    else FindCloser(t, i + 1)
  }

  /** A `}#` at `q`, reachable from `i` over non-terminators with no earlier
      `}#`, is the one the search stops at. */
  lemma {:induction false} FindCloserFirst(t: string, i: nat, q: nat)
    requires i <= q && CloserAt(t, q) && Dotted(t, i, q)
    requires forall j :: i <= j < q ==> !CloserAt(t, j)
    ensures FindCloser(t, i) == Some(q)
    decreases q - i
  {
    if i < q {
      FindCloserFirst(t, i + 1, q);
    }
  }

  /** What a text starting with `Wrap(key)` looks like, position by position. */
  lemma WrapPrefix(t: string, key: string)
    ensures Wrap(key) <= t ==>
      && t[0] == '#' && t[1] == '{'
      && t[2..|key| + 2] == key
      && CloserAt(t, |key| + 2)
  {
    if Wrap(key) <= t {
      var w := Wrap(key);
      assert w[0] == '#' && w[1] == '{' && w[|key| + 2] == '}' && w[|key| + 3] == '#';
      assert w[2..|key| + 2] == key;
    }
  }

  /** A token at the head of `t` ends exactly where the lazy search stops. */
  lemma TokenEndsAtFirstCloser(t: string, key: string)
    requires TokenAt(t, key)
    ensures FindCloser(t, 2) == Some(|key| + 2)
  {
    WrapPrefix(t, key);
    var q := |key| + 2;
    assert t[q] == '}';
    forall j | 2 <= j < q ensures !IsLineTerminator(t[j]) && !CloserAt(t, j) {
      assert t[j] == key[j - 2];
      if j + 1 < q {
        assert t[j + 1] == key[j - 1];
        assert !CloserAt(key, j - 2);
      }
    }
    FindCloserFirst(t, 2, q);
  }

  /** Two keys that both match at the start of one text are equal. */
  lemma TokenUnique(t: string, k1: string, k2: string)
    requires TokenAt(t, k1) && TokenAt(t, k2)
    ensures k1 == k2
  {
    TokenEndsAtFirstCloser(t, k1);
    TokenEndsAtFirstCloser(t, k2);
    WrapPrefix(t, k1);
    WrapPrefix(t, k2);
  }

  /** The key of the token starting at the head of `t`, if one does. */
  function MatchKey(t: string): (r: Option<string>)
    ensures r.Some? ==> TokenAt(t, r.value)
    ensures r.None? <==> forall k :: !TokenAt(t, k)
  {
    if |t| >= 2 && t[0] == '#' && t[1] == '{' then
      match FindCloser(t, 2)
      case Some(q) =>
        var key := t[2..q];
        assert ValidKey(key) by {
          forall i ensures !CloserAt(key, i) {
            if 0 <= i && i + 1 < |key| {
              assert key[i] == t[2 + i] && key[i + 1] == t[3 + i];
              assert !CloserAt(t, 2 + i);
            }
          }
        }
        assert Wrap(key) == t[..q + 2];
        assert TokenAt(t, key);
        Some(key)
      case None =>
        assert forall k :: !TokenAt(t, k) by {
          forall k ensures !TokenAt(t, k) {
            if ValidKey(k) && Wrap(k) <= t {
              TokenEndsAtFirstCloser(t, k);
            }
          }
        }
        None
    else
      assert forall k :: !TokenAt(t, k) by {
        forall k ensures !TokenAt(t, k) {
          WrapPrefix(t, k);
        }
      }
      None
  }

  /** A piece of scanned text: one character copied as is, or one token. */
  datatype Segment = Literal(c: char) | Token(key: string)

  /** The source text a segment was scanned from. */
  function Source(seg: Segment): string {
    match seg
    case Literal(c) => [c]
    case Token(k) => Wrap(k)
  }

  /** The concatenated source text of a segment list. */
  function Flatten(segs: seq<Segment>): string {
    if segs == [] then [] else Source(segs[0]) + Flatten(segs[1..])
  }

  /** Reference grammar of a global lazy scan: a character is copied only
      where no match starts, and a match is taken wherever one starts. */
  ghost predicate Tokenizes(segs: seq<Segment>, t: string)
    decreases segs
  {
    if segs == [] then t == []
    else match segs[0]
      case Literal(c) =>
        && t != [] && t[0] == c
        && (forall k :: !TokenAt(t, k))
        && Tokenizes(segs[1..], t[1..])
      case Token(k) =>
        && TokenAt(t, k)
        && Tokenizes(segs[1..], t[|Wrap(k)|..])
  }

  /** The segment the regex scan takes at the head of `t`: the token
      starting there, or else the first character. */
  function Head(t: string): (seg: Segment)
    requires t != []
    ensures 1 <= |Source(seg)| && Source(seg) <= t
  {
    match MatchKey(t)
    case Some(k) => Token(k)
    case None => Literal(t[0])
  }

  /** The segments `String.prototype.replace` visits, in order. */
  function Scan(t: string): seq<Segment>
    decreases |t|
  {
    if t == [] then []
    else
      var h := Head(t);
      [h] + Scan(t[|Source(h)|..])
  }

  /** Flattening a list with a known head. */
  lemma FlattenCons(seg: Segment, rest: seq<Segment>)
    ensures Flatten([seg] + rest) == Source(seg) + Flatten(rest)
  {
    assert ([seg] + rest)[1..] == rest;
  }

  /** A non-empty text is its head segment's source followed by the rest. */
  lemma HeadSplit(t: string)
    requires t != []
    ensures t == Source(Head(t)) + t[|Source(Head(t))|..]
  {
    PrefixSplit(Source(Head(t)), t);
  }

  /** A prefix followed by what comes after it is the whole text. */
  lemma PrefixSplit(p: string, t: string)
    requires p <= t
    ensures t == p + t[|p|..]
  {
    assert t[..|p|] == p;
  }

  /** Flattening the scan of a non-empty text: the head's source, then the rest's. */
  lemma FlattenScanCons(t: string)
    requires t != []
    ensures Flatten(Scan(t)) == Source(Head(t)) + Flatten(Scan(t[|Source(Head(t))|..]))
  {
    var h := Head(t);
    FlattenCons(h, Scan(t[|Source(h)|..]));
  }

  /** Scanning loses nothing: the segments spell out the text, in order. */
  lemma {:induction false} ScanRoundTrip(t: string)
    ensures Flatten(Scan(t)) == t
    decreases |t|
  {
    if t != [] {
      var u := t[|Source(Head(t))|..];
      ScanRoundTrip(u);
      FlattenScanCons(t);
      HeadSplit(t);
    }
  }

  /** Scanning follows the reference grammar. */
  lemma {:induction false} ScanTokenizes(t: string)
    ensures Tokenizes(Scan(t), t)
    decreases |t|
  {
    if t != [] {
      var h := Head(t);
      ScanTokenizes(t[|Source(h)|..]);
      assert Scan(t)[0] == h && Scan(t)[1..] == Scan(t[|Source(h)|..]);
    }
  }

  /** A tokenization is empty exactly when the text is. */
  lemma TokenizesEmpty(segs: seq<Segment>, t: string)
    requires Tokenizes(segs, t)
    ensures segs == [] <==> t == []
  {
    if segs != [] {
      match segs[0]
      case Literal(_) =>
      case Token(k) => assert |Wrap(k)| <= |t|;
    }
  }

  /** The first segment of any tokenization is the one the regex picks at the head. */
  lemma TokenizesHead(segs: seq<Segment>, t: string)
    requires Tokenizes(segs, t) && segs != []
    ensures t != []
    ensures segs[0] == Head(t)
    ensures Source(segs[0]) <= t
    ensures Tokenizes(segs[1..], t[|Source(segs[0])|..])
  {
    match segs[0]
    case Literal(_) =>
    case Token(k) =>
      TokenUnique(t, k, MatchKey(t).value);
  }

  /** The grammar admits one tokenization per text. */
  lemma {:induction false} TokenizesUnique(s1: seq<Segment>, s2: seq<Segment>, t: string)
    requires Tokenizes(s1, t) && Tokenizes(s2, t)
    ensures s1 == s2
    decreases |s1|
  {
    TokenizesEmpty(s1, t);
    TokenizesEmpty(s2, t);
    if s1 != [] {
      TokenizesHead(s1, t);
      TokenizesHead(s2, t);
      TokenizesUnique(s1[1..], s2[1..], t[|Source(s1[0])|..]);
      assert s1 == [s1[0]] + s1[1..];
      assert s2 == [s2[0]] + s2[1..];
    }
  }

  /** Every tokenization of `t` is `Scan(t)`. */
  lemma ScanIsTheTokenization(segs: seq<Segment>, t: string)
    requires Tokenizes(segs, t)
    ensures segs == Scan(t)
  {
    ScanTokenizes(t);
    TokenizesUnique(segs, Scan(t), t);
  }

  /** The keys of the matches, in text order (`match[1]` of each `exec`). */
  function KeysOf(segs: seq<Segment>): seq<string> {
    if segs == [] then []
    else match segs[0]
      case Literal(_) => KeysOf(segs[1..])
      case Token(k) => [k] + KeysOf(segs[1..])
  }

  function Keys(t: string): seq<string> {
    KeysOf(Scan(t))
  }

  /** `replacements[key] || match`: the value when the key is present with a
      non-empty (truthy) value, otherwise the matched text itself. */
  function Replacement(key: string, r: map<string, string>): string {
    if key in r && r[key] != "" then r[key] else Wrap(key)
  }

  /** The text produced for one segment. */
  function Emit(seg: Segment, r: map<string, string>): string {
    match seg
    case Literal(c) => [c]
    case Token(k) => Replacement(k, r)
  }

  /** The concatenation of `f` over `xs`, in order. */
  function Concat<T>(f: T -> string, xs: seq<T>): string {
    if xs == [] then [] else f(xs[0]) + Concat(f, xs[1..])
  }

  /** The text produced for a list of segments. */
  function Render(segs: seq<Segment>, r: map<string, string>): string {
    Concat((seg: Segment) => Emit(seg, r), segs)
  }

  /** The result of the `replace` call. */
  function Substitute(t: string, r: map<string, string>): string {
    Render(Scan(t), r)
  }
}
