/** Properties of the token substitution: text without tokens is unchanged,
    unresolved tokens stay verbatim, scanning resumes after each token and
    never revisits inserted values, and the behaviour on concrete inputs. */
module TokenProperties {
  import opened Results
  import opened JsStrings
  import opened TokenReplace

  /** Concatenation distributes over appending lists. */
  lemma {:induction false} ConcatAppend<T>(f: T -> string, a: seq<T>, b: seq<T>)
    ensures Concat(f, a + b) == Concat(f, a) + Concat(f, b)
    decreases |a|
  {
    if a == [] {
      assert a + b == b;
    } else {
      ConcatAppend(f, a[1..], b);
      assert (a + b)[1..] == a[1..] + b;
    }
  }

  /** Rendering distributes over concatenation of segment lists. */
  lemma RenderAppend(a: seq<Segment>, b: seq<Segment>, r: map<string, string>)
    ensures Render(a + b, r) == Render(a, r) + Render(b, r)
  {
    ConcatAppend((seg: Segment) => Emit(seg, r), a, b);
  }

  /** A segment list whose tokens all go unresolved renders back to its source text. */
  lemma {:induction false} RenderUnresolved(segs: seq<Segment>, r: map<string, string>)
    requires forall k :: k in KeysOf(segs) ==> k !in r || r[k] == ""
    ensures Render(segs, r) == Flatten(segs)
    decreases |segs|
  {
    if segs != [] {
      RenderUnresolved(segs[1..], r);
    }
  }

  /** Where a match cannot start (no `#{` at the head), the first character is copied. */
  lemma NoTokenHere(t: string)
    requires t != [] && (|t| < 2 || t[0] != '#' || t[1] != '{')
    ensures forall k :: !TokenAt(t, k)
  {
    forall k ensures !TokenAt(t, k) {
      WrapPrefix(t, k);
    }
  }

  /** A text with no match anywhere is a text whose scan yields no key. */
  lemma {:induction false} TokenFreeIffNoKeys(t: string)
    ensures TokenFree(t) <==> Keys(t) == []
    decreases |t|
  {
    if t == [] {
      assert forall p, k :: 0 <= p <= |t| ==> !TokenAt(t[p..], k) by {
        forall p, k | 0 <= p <= |t| ensures !TokenAt(t[p..], k) {
          assert |Wrap(k)| > |t[p..]|;
        }
      }
    } else {
      TokenFreeIffNoKeys(t[1..]);
      match MatchKey(t)
      case Some(k) =>
        assert t[0..] == t;
        assert !TokenFree(t);
      case None =>
        assert Keys(t) == Keys(t[1..]);
        if TokenFree(t[1..]) {
          forall p, k | 0 <= p <= |t| ensures !TokenAt(t[p..], k) {
            if p == 0 {
              assert t[0..] == t;
            } else {
              assert t[p..] == t[1..][p - 1..];
            }
          }
        }
        if TokenFree(t) {
          forall p, k | 0 <= p <= |t[1..]| ensures !TokenAt(t[1..][p..], k) {
            assert t[1..][p..] == t[p + 1..];
          }
        }
    }
  }

  /** Text with no `#{…}#` match comes back unchanged, whatever the replacements. */
  lemma NoTokensUnchanged(t: string, r: map<string, string>)
    requires TokenFree(t)
    ensures Keys(t) == []
    ensures Substitute(t, r) == t
  {
    TokenFreeIffNoKeys(t);
    RenderUnresolved(Scan(t), r);
    ScanRoundTrip(t);
  }

  /** Tokens whose key is absent or maps to "" stay verbatim, delimiters included;
      with nothing resolvable the whole text comes back unchanged. */
  lemma UnresolvedUnchanged(t: string, r: map<string, string>)
    requires forall k :: k in Keys(t) ==> k !in r || r[k] == ""
    ensures Substitute(t, r) == t
  {
    RenderUnresolved(Scan(t), r);
    ScanRoundTrip(t);
  }

  /** An empty replacement map changes nothing. */
  lemma EmptyMapUnchanged(t: string)
    ensures Substitute(t, map[]) == t
  {
    UnresolvedUnchanged(t, map[]);
  }

  /** Key lists distribute over concatenation of segment lists. */
  lemma {:induction false} KeysOfAppend(a: seq<Segment>, b: seq<Segment>)
    ensures KeysOf(a + b) == KeysOf(a) + KeysOf(b)
    decreases |a|
  {
    if a == [] {
      assert a + b == b;
    } else {
      assert (a + b)[0] == a[0] && (a + b)[1..] == a[1..] + b;
      KeysOfAppend(a[1..], b);
    }
  }

  /** Keys and output of a text whose scan begins with known segments. */
  lemma ScanPrefix(t: string, pre: seq<Segment>, u: string, r: map<string, string>)
    requires Scan(t) == pre + Scan(u)
    ensures Keys(t) == KeysOf(pre) + Keys(u)
    ensures Substitute(t, r) == Render(pre, r) + Substitute(u, r)
  {
    KeysOfAppend(pre, Scan(u));
    RenderAppend(pre, Scan(u), r);
  }

  /** A token at the head is one segment, and scanning resumes right after its `}#`. */
  lemma ScanToken(key: string, u: string)
    requires ValidKey(key)
    ensures Scan(Wrap(key) + u) == [Token(key)] + Scan(u)
  {
    var t := Wrap(key) + u;
    assert TokenAt(t, key);
    TokenUnique(t, key, MatchKey(t).value);
    assert t[|Wrap(key)|..] == u;
  }

  /** Where no token starts, the first character is one literal segment. */
  lemma ScanLiteral(c: char, u: string)
    requires forall k :: !TokenAt([c] + u, k)
    ensures Scan([c] + u) == [Literal(c)] + Scan(u)
  {
    assert ([c] + u)[1..] == u;
  }

  /** The literal segments spelling out `p`. */
  function Literals(p: string): (segs: seq<Segment>)
    ensures KeysOf(segs) == []
  {
    if p == [] then [] else [Literal(p[0])] + Literals(p[1..])
  }

  /** Literal segments render back to the characters they were made from. */
  lemma {:induction false} RenderLiterals(p: string, r: map<string, string>)
    ensures Render(Literals(p), r) == p
    decreases |p|
  {
    if p != [] {
      RenderLiterals(p[1..], r);
      RenderAppend([Literal(p[0])], Literals(p[1..]), r);
      assert [p[0]] + p[1..] == p;
    }
  }

  /** A text not starting with `#` scans its first character as a literal. */
  lemma ScanPlainHead(t: string)
    requires t != [] && t[0] != '#'
    ensures Scan(t) == [Literal(t[0])] + Scan(t[1..])
  {
    NoTokenHere(t);
    assert Head(t) == Literal(t[0]);
  }

  /** A run of characters containing no `#` scans as literals. */
  lemma {:induction false} ScanPlain(p: string, u: string)
    requires forall i :: 0 <= i < |p| ==> p[i] != '#'
    ensures Scan(p + u) == Literals(p) + Scan(u)
    decreases |p|
  {
    if p == [] {
      assert p + u == u;
    } else {
      var t := p + u;
      assert t[0] == p[0] && t[1..] == p[1..] + u;
      ScanPlainHead(t);
      ScanPlain(p[1..], u);
    }
  }

  /** A text that starts with a token: the token is replaced by `replacements[key] || match`
      and scanning resumes right after its `}#`, so the inserted value is never rescanned. */
  lemma SubstituteToken(key: string, u: string, r: map<string, string>)
    requires ValidKey(key)
    ensures Keys(Wrap(key) + u) == [key] + Keys(u)
    ensures Substitute(Wrap(key) + u, r) == Replacement(key, r) + Substitute(u, r)
  {
    ScanToken(key, u);
    ScanPrefix(Wrap(key) + u, [Token(key)], u, r);
  }

  /** A text whose head is no token: its first character is copied as is. */
  lemma SubstituteLiteral(c: char, u: string, r: map<string, string>)
    requires forall k :: !TokenAt([c] + u, k)
    ensures Keys([c] + u) == Keys(u)
    ensures Substitute([c] + u, r) == [c] + Substitute(u, r)
  {
    ScanLiteral(c, u);
    ScanPrefix([c] + u, [Literal(c)], u, r);
  }

  /** A run of characters containing no `#` is copied as is and yields no key. */
  lemma SubstitutePlain(p: string, u: string, r: map<string, string>)
    requires forall i :: 0 <= i < |p| ==> p[i] != '#'
    ensures Keys(p + u) == Keys(u)
    ensures Substitute(p + u, r) == p + Substitute(u, r)
  {
    ScanPlain(p, u);
    ScanPrefix(p + u, Literals(p), u, r);
    RenderLiterals(p, r);
  }

  /** Texts shorter than the smallest token `#{}#` hold no token. */
  lemma ShortUnchanged(t: string, r: map<string, string>)
    requires |t| < 4
    ensures Keys(t) == []
    ensures Substitute(t, r) == t
  {
    assert TokenFree(t) by {
      forall p, k | 0 <= p <= |t| ensures !TokenAt(t[p..], k) {
        assert |Wrap(k)| > |t[p..]|;
      }
    }
    NoTokensUnchanged(t, r);
  }

  /** The keys of a non-empty text: those of its head segment, then the rest. */
  lemma KeysCons(t: string)
    requires t != []
    ensures Keys(t) == KeysOf([Head(t)]) + Keys(t[|Source(Head(t))|..])
  {
    var h := Head(t);
    var rest := Scan(t[|Source(h)|..]);
    assert Scan(t) == [h] + rest;
    assert ([h] + rest)[1..] == rest;
  }

  /** What occurs in a suffix occurs in the whole text. */
  lemma IncludesSuffix(t: string, n: nat, w: string)
    requires n <= |t| && Includes(t[n..], w)
    ensures Includes(t, w)
  {
    var rest := t[n..];
    var i: nat :| i <= |rest| && OccursAt(rest, w, i);
    assert t[n + i..n + i + |w|] == rest[i..i + |w|];
    assert OccursAt(t, w, n + i);
  }

  /** Every key reported is a valid capture that occurs, delimited, in the text. */
  lemma {:induction false} KeysOccurInText(t: string)
    ensures forall k :: k in Keys(t) ==> ValidKey(k) && Includes(t, Wrap(k))
    decreases |t|
  {
    if t != [] {
      var h := Head(t);
      var n := |Source(h)|;
      KeysOccurInText(t[n..]);
      KeysCons(t);
      forall k | k in Keys(t) ensures ValidKey(k) && Includes(t, Wrap(k)) {
        if k in Keys(t[n..]) {
          IncludesSuffix(t, n, Wrap(k));
        } else {
          assert h == Token(k);
          assert OccursAt(t, Wrap(k), 0);
        }
      }
    }
  }

  /** Two tokens separated by plain runs yield their two keys, in order. */
  lemma TwoTokens(pre: string, a: string, sep: string, b: string)
    requires forall i :: 0 <= i < |pre| ==> pre[i] != '#'
    requires forall i :: 0 <= i < |sep| ==> sep[i] != '#'
    requires ValidKey(a) && ValidKey(b)
    ensures Keys(pre + (Wrap(a) + (sep + Wrap(b)))) == [a, b]
  {
    SubstitutePlain(pre, Wrap(a) + (sep + Wrap(b)), map[]);
    SubstituteToken(a, sep + Wrap(b), map[]);
    SubstitutePlain(sep, Wrap(b), map[]);
    assert Wrap(b) == Wrap(b) + "";
    SubstituteToken(b, "", map[]);
    ShortUnchanged("", map[]);
  }

  /** A token followed by a brace group that only a `#` after its closer would
      open: the `#` of the first `}#` is consumed, so the rest is literal text. */
  lemma TokenThenBraces(a: string, mid: string, r: map<string, string>)
    requires ValidKey(a)
    requires forall i :: 0 <= i < |mid| ==> mid[i] != '#'
    ensures Keys(Wrap(a) + (mid + "#")) == [a]
    ensures Substitute(Wrap(a) + (mid + "#"), r) == Replacement(a, r) + (mid + "#")
  {
    SubstituteToken(a, mid + "#", r);
    SubstitutePlain(mid, "#", r);
    ShortUnchanged("#", r);
  }

  // The literal-text lemmas below each state one equality between a string
  // literal and the same text assembled from `Wrap` and concatenation. They
  // keep those equalities out of the example proofs, which then only combine
  // the general lemmas above.

  /** `Hello #{name}#, your age is #{age}#`, assembled. */
  lemma TwoKeysText()
    ensures "Hello " + (Wrap("name") + (", your age is " + Wrap("age")))
            == "Hello #{name}#, your age is #{age}#"
  {
  }

  /** `#{outer}# and #{in{ne}r}#`, assembled. */
  lemma InnerBracesText()
    ensures [] + (Wrap("outer") + (" and " + Wrap("in{ne}r"))) == "#{outer}# and #{in{ne}r}#"
  {
  }

  /** `in{ne}r` holds no `}#` and no line terminator, so it is a valid capture. */
  lemma InnerKeyValid()
    ensures ValidKey("in{ne}r")
  {
    var inner := "in{ne}r";
    assert forall i :: 0 <= i < |inner| ==> inner[i] != '#';
  }

  /** `Hello #{name}#, age #{age}#`, assembled. */
  lemma ResolvedAndMissingText()
    ensures "Hello " + (Wrap("name") + (", age " + Wrap("age"))) == "Hello #{name}#, age #{age}#"
  {
  }

  /** `#{a}#{b}#`, assembled. */
  lemma NoOverlapText()
    ensures Wrap("a") + ("{b}" + "#") == "#{a}#{b}#"
  {
  }

  /** The keys of `Hello #{name}#, your age is #{age}#` are `name` then `age`. */
  lemma ExampleTwoKeys()
    ensures Keys("Hello #{name}#, your age is #{age}#") == ["name", "age"]
  {
    TwoTokens("Hello ", "name", ", your age is ", "age");
    TwoKeysText();
  }

  /** The first `}#` closes a token, so `#{in{ne}r}#` has the key `in{ne}r`. */
  lemma ExampleInnerBraces()
    ensures Keys("#{outer}# and #{in{ne}r}#") == ["outer", "in{ne}r"]
  {
    InnerKeyValid();
    TwoTokens([], "outer", " and ", "in{ne}r");
    InnerBracesText();
  }

  /** Matches do not overlap: in `#{a}#{b}#` the `#` closing `a` cannot open
      another token, so `{b}#` is literal text. */
  lemma ExampleNoOverlap()
    ensures Keys("#{a}#{b}#") == ["a"]
    ensures Substitute("#{a}#{b}#", map["a" := "1", "b" := "2"]) == "1{b}#"
  {
    TokenThenBraces("a", "{b}", map["a" := "1", "b" := "2"]);
    NoOverlapText();
    assert "1" + ("{b}" + "#") == "1{b}#";
  }

  /** Between plain runs, a key with a non-empty value is replaced and a key
      without one stays verbatim. */
  lemma ResolvedAndMissing(pre: string, a: string, sep: string, b: string, v: string)
    requires forall i :: 0 <= i < |pre| ==> pre[i] != '#'
    requires forall i :: 0 <= i < |sep| ==> sep[i] != '#'
    requires ValidKey(a) && ValidKey(b) && a != b && v != ""
    ensures Substitute(pre + (Wrap(a) + (sep + Wrap(b))), map[a := v]) == pre + (v + (sep + Wrap(b)))
  {
    var r := map[a := v];
    SubstitutePlain(pre, Wrap(a) + (sep + Wrap(b)), r);
    SubstituteToken(a, sep + Wrap(b), r);
    SubstitutePlain(sep, Wrap(b), r);
    assert Wrap(b) == Wrap(b) + "";
    SubstituteToken(b, "", r);
    ShortUnchanged("", r);
  }

  /** `Hello Alice, age #{age}#`, assembled (a literal-text lemma). */
  lemma ResolvedAndMissingOutput()
    ensures "Hello " + ("Alice" + (", age " + Wrap("age"))) == "Hello Alice, age #{age}#"
  {
  }

  /** A known key is replaced; an unknown one stays verbatim. */
  lemma ExampleResolvedAndMissing()
    ensures Substitute("Hello #{name}#, age #{age}#", map["name" := "Alice"]) == "Hello Alice, age #{age}#"
  {
    ResolvedAndMissing("Hello ", "name", ", age ", "age", "Alice");
    ResolvedAndMissingText();
    ResolvedAndMissingOutput();
  }

  /** A key mapped to "" is falsy under `||`, so its token stays. */
  lemma ExampleEmptyValue()
    ensures Substitute("#{name}#", map["name" := ""]) == "#{name}#"
  {
    var r := map["name" := ""];
    assert "#{name}#" == Wrap("name") + "";
    SubstituteToken("name", "", r);
    ShortUnchanged("", r);
  }

  /** The value is inserted literally: no `$&` expansion and no rescanning of
      a token-shaped value. */
  lemma ExampleValueInsertedLiterally()
    ensures Substitute("#{x}#", map["x" := "$&#{x}#"]) == "$&#{x}#"
  {
    var r := map["x" := "$&#{x}#"];
    assert "#{x}#" == Wrap("x") + "";
    SubstituteToken("x", "", r);
    ShortUnchanged("", r);
  }

  /** The key may be empty. */
  lemma ExampleEmptyKey()
    ensures Keys("#{}#") == [""]
  {
    assert "#{}#" == Wrap("") + "";
    SubstituteToken("", "", map[]);
    ShortUnchanged("", map[]);
  }

  /** A line terminator inside the braces prevents the match. */
  lemma ExampleLineBreak()
    ensures Keys("#{a\nb}#") == []
  {
    var t := "#{a\nb}#";
    assert FindCloser(t, 2) == None;
    assert MatchKey(t) == None;
    var rest := "{a\nb}" + "#";
    assert t == ['#'] + rest;
    calc {
      Keys(t);
      { SubstituteLiteral('#', rest, map[]); }
      Keys(rest);
      { SubstitutePlain("{a\nb}", "#", map[]); }
      Keys("#");
      { ShortUnchanged("#", map[]); }
      [];
    }
  }
}
